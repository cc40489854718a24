/** The cue-sheet image of src/cue.rs: the bin files a cue sheet names,
    finalised, and a cursor over the disc they make up, which starts at the
    first sector after the first track's two-second pregap and is always set.
    Sector numbers on the cursor count from the very start of the disc, so
    the first sector a bin file holds is sector 150. */
module Cue {
  import opened Wrappers
  import opened Index
  import opened Disc
  import opened CueSheet
  import opened CueLayout
  import CueOpen
  import Sbi

  /** `Location::default`. */
  const START: Location := Location(0, 0, FIRST_TRACK_PREGAP, 0)

  /** No finalised track is zero sectors long. */
  predicate NoEmptyTracks(bins: seq<BinFile>) {
    forall b, j :: 0 <= b < |bins| && 0 <= j < |bins[b].tracks| ==> bins[b].tracks[j].numSectors > 0
  }

  // ---------------------------------------------------------------------
  // Where the cursor is

  /** A cursor position that is where its sector is: inside the pregap of
      the first track it is the zero sector of the first bin file; after it,
      the sector is 150 plus the sectors of the bin files before this one plus
      the sector in this one, and that sector lies inside the cursor's track. */
  predicate Coherent(bins: seq<BinFile>, loc: Location)
    requires InRange(bins, loc)
  {
    var t := bins[loc.binFileNo].tracks[loc.trackInBin];
    if loc.globalLba < FIRST_TRACK_PREGAP then
      loc.binFileNo == 0 && loc.trackInBin == 0 && loc.binLocalLba == 0
    else
      && loc.globalLba == FIRST_TRACK_PREGAP + TotalSectors(bins[..loc.binFileNo]) + loc.binLocalLba
      && t.startingLba <= loc.binLocalLba < t.startingLba + t.numSectors
  }

  /** Where `set_location` puts the cursor for disc sector `target`: inside
      the first track's pregap, at sector 0 of the first bin file; after it,
      where the search finds `target - 150`. None is `OutOfRange`. */
  function SeekTo(bins: seq<BinFile>, target: uint32): (r: Option<Location>)
    requires bins != [] && bins[0].tracks != []
    ensures r.Some? ==> InRange(bins, r.value) && r.value.globalLba == target
    ensures target < FIRST_TRACK_PREGAP ==> r == Some(Location(0, 0, target, 0))
  {
    if target < FIRST_TRACK_PREGAP then Some(Location(0, 0, target, 0))
    else
      match LocateFrom(bins, 0, target - FIRST_TRACK_PREGAP)
      case None => None
      case Some((b, j, off)) => Some(Location(b, j, target, off))
  }

  /** On tiled bin files, seeking succeeds exactly for the sectors of the
      disc, and lands on a coherent position. */
  lemma {:induction false} SeekToFinds(bins: seq<BinFile>, target: uint32)
    requires bins != [] && bins[0].tracks != [] && AllTiled(bins)
    ensures SeekTo(bins, target).Some? <==> target < FIRST_TRACK_PREGAP + TotalSectors(bins)
    ensures SeekTo(bins, target).Some? ==> Coherent(bins, SeekTo(bins, target).value)
  {
    assert bins[0..] == bins;
    if target >= FIRST_TRACK_PREGAP {
      LocateTiled(bins, 0, target - FIRST_TRACK_PREGAP);
      if SeekTo(bins, target).Some? {
        var b := SeekTo(bins, target).value.binFileNo;
        assert bins[0..b] == bins[..b];
      }
    }
  }

  /** Every coherent position is the one seeking to its sector gives. */
  lemma {:induction false} SeekToCoherent(bins: seq<BinFile>, loc: Location)
    requires InRange(bins, loc) && bins[0].tracks != [] && AllTiled(bins) && Coherent(bins, loc)
    ensures SeekTo(bins, loc.globalLba) == Some(loc)
  {
    if loc.globalLba >= FIRST_TRACK_PREGAP {
      LocateExact(bins, 0, loc.binFileNo, loc.trackInBin, loc.binLocalLba);
      assert bins[0..loc.binFileNo] == bins[..loc.binFileNo];
    }
  }

  /** Seeking keeps the address asked for: the cursor then reports it back. */
  lemma {:induction false} SeekKeepsAddress(bins: seq<BinFile>, target: MsfIndex)
    requires bins != [] && bins[0].tracks != [] && target.Valid()
    requires SeekTo(bins, ToLba(target)).Some?
    ensures AddressOf(SeekTo(bins, ToLba(target)).value.globalLba) == Ok(target)
  {
    LbaRoundTrip(target);
  }

  /** What `track_start` returns: `OutOfRange` for a track past the last
      one, else the address of the sector `TrackStartLba` computes. */
  function TrackStartMsf(bins: seq<BinFile>, track: uint8): (r: Result<MsfIndex, ImageError>)
    requires track != 0 ==> IndexOnePresent(bins, track)
    ensures r == Err(ImageError.OutOfRange) <==> TrackStartLba(bins, track).None?
    ensures r.Ok? ==> r.value.Valid() && ToLba(r.value) == TrackStartLba(bins, track).value % LBA_WRAP
    ensures TrackStartLba(bins, track).Some? && TrackStartLba(bins, track).value < MAX_LBA ==>
              r.Ok? && ToLba(r.value) == TrackStartLba(bins, track).value
  {
    var s := TrackStartLba(bins, track);
    if s.None? then Err(ImageError.OutOfRange) else AddressOf(s.value)
  }

  /** `set_location_to_track`: seek to the address `track_start` gives. */
  function SeekToTrack(bins: seq<BinFile>, track: uint8): (r: Result<Location, ImageError>)
    requires bins != [] && bins[0].tracks != []
    requires track != 0 ==> IndexOnePresent(bins, track)
    ensures TrackStartMsf(bins, track).Err? ==> r == Err(TrackStartMsf(bins, track).error)
    ensures r.Ok? ==> InRange(bins, r.value) && r.value.globalLba == ToLba(TrackStartMsf(bins, track).value)
  {
    match TrackStartMsf(bins, track)
    case Err(e) => Err(e)
    case Ok(x) =>
      match SeekTo(bins, ToLba(x))
      case None => Err(ImageError.OutOfRange)
      case Some(loc) => Ok(loc)
  }

  lemma {:induction false} TotalSectorsSplit(bins: seq<BinFile>, b: nat)
    requires b < |bins|
    ensures TotalSectors(bins[..b]) + NumSectors(bins[b]) + TotalSectors(bins[b + 1..]) == TotalSectors(bins)
  {
    NumTracksStep(bins, b);
    assert bins == bins[..b + 1] + bins[b + 1..];
    TotalSectorsAppend(bins[..b + 1], bins[b + 1..]);
  }

  lemma {:induction false} NumTracksSplit(bins: seq<BinFile>, b: nat)
    requires b < |bins|
    ensures NumTracks(bins[..b]) + |bins[b].tracks| <= NumTracks(bins)
  {
    NumTracksStep(bins, b);
    assert bins == bins[..b + 1] + bins[b + 1..];
    NumTracksAppend(bins[..b + 1], bins[b + 1..]);
  }

  /** Seeking to a track whose INDEX 01 lies inside it, on a disc shorter
      than 100 minutes, puts the cursor on that track's INDEX 01, in the
      track's own bin file and slot, so `current_track` reports the number
      asked for; there `current_index` is 1 and the track-relative address
      is 00:00:00. */
  lemma {:induction false} SeekToTrackLands(bins: seq<BinFile>, track: uint8, b: nat, j: nat)
    requires bins != [] && bins[0].tracks != [] && AllTiled(bins)
    requires b < |bins| && j < |bins[b].tracks| && NumTracks(bins[..b]) + j + 1 == track as int
    requires 1 in bins[b].tracks[j].indices
    requires var t := bins[b].tracks[j]; t.startingLba <= t.indices[1] < t.startingLba + t.numSectors
    requires FIRST_TRACK_PREGAP + TotalSectors(bins) < MAX_LBA
    ensures && IndexOnePresent(bins, track)
            && var t := bins[b].tracks[j];
            && SeekToTrack(bins, track).Ok?
            && var loc := SeekToTrack(bins, track).value;
            && loc.binFileNo == b && loc.trackInBin == j && loc.binLocalLba == t.indices[1]
            && loc.globalLba == FIRST_TRACK_PREGAP + TotalSectors(bins[..b]) + t.indices[1]
            && IndexAt(t, t.indices[1]) == 1
            && TrackLocalMsf(t, t.indices[1]) == Ok(MsfIndex(0, 0, 0))
  {
    var t := bins[b].tracks[j];
    var lba := FIRST_TRACK_PREGAP + TotalSectors(bins[..b]) + t.indices[1];
    IndexOneCoherent(bins, b, j);
    TrackStartAtIndexOne(bins, track, b, j);
    var loc := Location(b, j, lba, t.indices[1]);
    SeekToCoherent(bins, loc);
    IndexMatchesLocalMsf(t, t.indices[1]);
  }

  /** `track_start` of the track in slot (b, j) is its INDEX 01 on the disc. */
  lemma {:induction false} TrackStartAtIndexOne(bins: seq<BinFile>, track: uint8, b: nat, j: nat)
    requires b < |bins| && j < |bins[b].tracks| && NumTracks(bins[..b]) + j + 1 == track as int
    requires 1 in bins[b].tracks[j].indices
    requires FIRST_TRACK_PREGAP + TotalSectors(bins[..b]) + bins[b].tracks[j].indices[1] < M
    ensures IndexOnePresent(bins, track)
    ensures TrackStartLba(bins, track) == Some(FIRST_TRACK_PREGAP + TotalSectors(bins[..b]) + bins[b].tracks[j].indices[1])
  {
    TrackSlotUnique(bins, b, j);
  }

  /** The cursor on the INDEX 01 sector of a track that holds it is where its sector is. */
  lemma {:induction false} IndexOneCoherent(bins: seq<BinFile>, b: nat, j: nat)
    requires AllTiled(bins) && b < |bins| && j < |bins[b].tracks|
    requires 1 in bins[b].tracks[j].indices
    requires var t := bins[b].tracks[j]; t.startingLba <= t.indices[1] < t.startingLba + t.numSectors
    requires FIRST_TRACK_PREGAP + TotalSectors(bins) < MAX_LBA
    ensures var t := bins[b].tracks[j];
            && FIRST_TRACK_PREGAP + TotalSectors(bins[..b]) + t.indices[1] < MAX_LBA
            && Coherent(bins, Location(b, j, FIRST_TRACK_PREGAP + TotalSectors(bins[..b]) + t.indices[1], t.indices[1]))
  {
    TrackEnd(bins[b], j);
    TotalSectorsSplit(bins, b);
  }

  // ---------------------------------------------------------------------
  // Moving on one sector

  /** `advance_position`: inside the first track's pregap only the disc
      sector moves; after it the disc and bin-file sectors both move on, and
      at the end of the track the cursor goes to the next track of the bin
      file, or else to the first track of the next bin file, or else reports
      the end of the disc. The sums are `u32` sums. */
  function Advance(bins: seq<BinFile>, loc: Location): (r: (Location, Option<Event>))
    requires InRange(bins, loc)
    ensures AllHaveTracks(bins) ==> InRange(bins, r.0)
    ensures r.0.globalLba == (loc.globalLba + 1) % M
    ensures r.1 == Some(EndOfDisc) ==> loc.binFileNo + 1 == |bins| && loc.trackInBin + 1 == |bins[loc.binFileNo].tracks|
    ensures r.1.None? || loc.globalLba < FIRST_TRACK_PREGAP ==>
              r.0.binFileNo == loc.binFileNo && r.0.trackInBin == loc.trackInBin
  {
    if loc.globalLba < FIRST_TRACK_PREGAP then
      (loc.(globalLba := loc.globalLba + 1), None)
    else
      var bin := bins[loc.binFileNo];
      var t := bin.tracks[loc.trackInBin];
      var trackEnd := WrapAdd(t.startingLba, t.numSectors);
      var g := WrapAdd(loc.globalLba, 1);
      var l := WrapAdd(loc.binLocalLba, 1);
      if l < trackEnd then
        (loc.(globalLba := g, binLocalLba := l), None)
      else if |bin.tracks| > loc.trackInBin + 1 then
        (loc.(trackInBin := loc.trackInBin + 1, globalLba := g, binLocalLba := l), Some(TrackChange))
      else if |bins| > loc.binFileNo + 1 then
        (Location(loc.binFileNo + 1, 0, g, 0), Some(TrackChange))
      else
        (loc.(globalLba := g, binLocalLba := l), Some(EndOfDisc))
  }

  /** The conditions under which moving on is well behaved: tiled bin
      files with tracks, none of them empty, on a disc whose sectors fit a
      `u32`, from a coherent position. */
  predicate AdvanceSetting(bins: seq<BinFile>, loc: Location) {
    && AllTiled(bins) && AllHaveTracks(bins) && NoEmptyTracks(bins)
    && FIRST_TRACK_PREGAP + TotalSectors(bins) < M
    && InRange(bins, loc) && Coherent(bins, loc)
  }

  /** What moving on from `loc` to `next` with event `ev` should do. */
  predicate AdvancesWell(bins: seq<BinFile>, loc: Location, next: Location, ev: Option<Event>)
    requires InRange(bins, next)
  {
    && next.globalLba == loc.globalLba + 1
    && (ev == Some(EndOfDisc) <==> loc.globalLba + 1 == FIRST_TRACK_PREGAP + TotalSectors(bins))
    && (ev != Some(EndOfDisc) ==> Coherent(bins, next))
    && (ev == Some(TrackChange) ==> next.binLocalLba == bins[next.binFileNo].tracks[next.trackInBin].startingLba)
  }

  /** A bin file with tracks has as many sectors as its first track at least. */
  lemma FirstTrackSectors(b: BinFile)
    requires Tiled(b) && b.tracks != []
    ensures b.tracks[0].startingLba == 0 && b.tracks[0].numSectors <= NumSectors(b)
  {
    assert b.tracks[..0] == [];
  }

  lemma {:induction false} AdvanceInPregap(bins: seq<BinFile>, loc: Location)
    requires AdvanceSetting(bins, loc) && loc.globalLba < FIRST_TRACK_PREGAP
    ensures AdvancesWell(bins, loc, Advance(bins, loc).0, Advance(bins, loc).1)
  {
    assert bins[..0] == [];
    FirstTrackSectors(bins[0]);
    TotalSectorsSplit(bins, 0);
  }

  lemma {:induction false} AdvanceInTrack(bins: seq<BinFile>, loc: Location)
    requires AdvanceSetting(bins, loc) && loc.globalLba >= FIRST_TRACK_PREGAP
    requires var t := bins[loc.binFileNo].tracks[loc.trackInBin]; loc.binLocalLba + 1 < t.startingLba + t.numSectors
    ensures AdvancesWell(bins, loc, Advance(bins, loc).0, Advance(bins, loc).1)
  {
    TrackEnd(bins[loc.binFileNo], loc.trackInBin);
    TotalSectorsSplit(bins, loc.binFileNo);
  }

  lemma {:induction false} AdvanceToNextTrack(bins: seq<BinFile>, loc: Location)
    requires AdvanceSetting(bins, loc) && loc.globalLba >= FIRST_TRACK_PREGAP
    requires var t := bins[loc.binFileNo].tracks[loc.trackInBin]; loc.binLocalLba + 1 == t.startingLba + t.numSectors
    requires loc.trackInBin + 1 < |bins[loc.binFileNo].tracks|
    ensures AdvancesWell(bins, loc, Advance(bins, loc).0, Advance(bins, loc).1)
  {
    TrackEnd(bins[loc.binFileNo], loc.trackInBin);
    TrackEnd(bins[loc.binFileNo], loc.trackInBin + 1);
    TotalSectorsSplit(bins, loc.binFileNo);
  }

  lemma {:induction false} AdvanceToNextBin(bins: seq<BinFile>, loc: Location)
    requires AdvanceSetting(bins, loc) && loc.globalLba >= FIRST_TRACK_PREGAP
    requires var t := bins[loc.binFileNo].tracks[loc.trackInBin]; loc.binLocalLba + 1 == t.startingLba + t.numSectors
    requires loc.trackInBin + 1 == |bins[loc.binFileNo].tracks| && loc.binFileNo + 1 < |bins|
    ensures AdvancesWell(bins, loc, Advance(bins, loc).0, Advance(bins, loc).1)
  {
    var b := loc.binFileNo;
    TrackEnd(bins[b], loc.trackInBin);
    NumTracksStep(bins, b);
    TotalSectorsSplit(bins, b + 1);
    FirstTrackSectors(bins[b + 1]);
  }

  lemma {:induction false} AdvanceAtEnd(bins: seq<BinFile>, loc: Location)
    requires AdvanceSetting(bins, loc) && loc.globalLba >= FIRST_TRACK_PREGAP
    requires var t := bins[loc.binFileNo].tracks[loc.trackInBin]; loc.binLocalLba + 1 == t.startingLba + t.numSectors
    requires loc.trackInBin + 1 == |bins[loc.binFileNo].tracks| && loc.binFileNo + 1 == |bins|
    ensures AdvancesWell(bins, loc, Advance(bins, loc).0, Advance(bins, loc).1)
  {
    TrackEnd(bins[loc.binFileNo], loc.trackInBin);
    TotalSectorsSplit(bins, loc.binFileNo);
    assert bins[loc.binFileNo + 1..] == [];
  }

  /** Moving on from a coherent position (under `AdvanceSetting`) reaches
      the next sector of the disc: the position stays coherent, a track
      change lands on the first sector of the new track, and the end of the
      disc is reported exactly after its last sector. */
  lemma {:induction false} AdvanceCoherent(bins: seq<BinFile>, loc: Location)
    requires AdvanceSetting(bins, loc)
    ensures var (next, ev) := Advance(bins, loc);
      && next.globalLba == loc.globalLba + 1
      && (ev == Some(EndOfDisc) <==> loc.globalLba + 1 == FIRST_TRACK_PREGAP + TotalSectors(bins))
      && (ev != Some(EndOfDisc) ==> Coherent(bins, next))
      && (ev == Some(TrackChange) ==> next.binLocalLba == bins[next.binFileNo].tracks[next.trackInBin].startingLba)
  {
    var t := bins[loc.binFileNo].tracks[loc.trackInBin];
    if loc.globalLba < FIRST_TRACK_PREGAP {
      AdvanceInPregap(bins, loc);
    } else if loc.binLocalLba + 1 < t.startingLba + t.numSectors {
      AdvanceInTrack(bins, loc);
    } else if loc.trackInBin + 1 < |bins[loc.binFileNo].tracks| {
      AdvanceToNextTrack(bins, loc);
    } else if loc.binFileNo + 1 < |bins| {
      AdvanceToNextBin(bins, loc);
    } else {
      AdvanceAtEnd(bins, loc);
    }
  }

  // ---------------------------------------------------------------------
  // The image

  class Cuesheet {
    const binFiles: seq<BinFile>
    var location: Location
    const invalidSubqLbas: Option<set<nat>>

    /** There are bin files, each with tracks, and the cursor names a bin
        file and a track in it. */
    predicate Valid()
      reads this
    {
      binFiles != [] && AllHaveTracks(binFiles) && InRange(binFiles, location)
    }

    constructor (bins: seq<BinFile>, sbi: Option<set<nat>>)
      requires bins != [] && AllHaveTracks(bins)
      ensures Valid()
      ensures binFiles == bins && location == START && invalidSubqLbas == sbi
    {
      binFiles := bins;
      location := START;
      invalidSubqLbas := sbi;
    }

    /** `num_tracks`. */
    function TrackCount(): (r: nat)
      reads this
      ensures r == NumTracks(binFiles)
    {
      NumTracks(binFiles)
    }

    /** `current_subchannel_q_valid`: false exactly on the sectors the SBI file lists. */
    function SubchannelQValid(): (r: bool)
      reads this
      ensures r <==> invalidSubqLbas.None? || location.globalLba !in invalidSubqLbas.value
    {
      match invalidSubqLbas
      case None => true
      case Some(lbas) => location.globalLba !in lbas
    }

    /** `current_track`: the number of the cursor's track, counted over all
        bin files from 1, in `u8`. */
    method CurrentTrack() returns (r: Result<uint8, ImageError>)
      requires Valid()
      ensures r.Ok? && r.value == (NumTracks(binFiles[..location.binFileNo]) + location.trackInBin + 1) % 256
      ensures NumTracks(binFiles) < 256 ==>
                r.value >= 1 && TrackSlot(binFiles, r.value) == Some((location.binFileNo, location.trackInBin))
    {
      var n := CueLayout.CurrentTrack(binFiles, location);
      NumTracksSplit(binFiles, location.binFileNo);
      TrackSlotUnique(binFiles, location.binFileNo, location.trackInBin);
      r := Ok(n);
    }

    /** `current_index`. The source unwraps the track's INDEX 01. */
    function CurrentIndex(): (r: Result<uint8, ImageError>)
      reads this
      requires Valid() && 1 in binFiles[location.binFileNo].tracks[location.trackInBin].indices
      ensures r.Ok? && (r.value == 1 <==> binFiles[location.binFileNo].tracks[location.trackInBin].indices[1] <= location.binLocalLba)
    {
      Ok(IndexAt(binFiles[location.binFileNo].tracks[location.trackInBin], location.binLocalLba))
    }

    /** `current_track_local_msf`. */
    function CurrentTrackLocalMsf(): (r: Result<MsfIndex, ImageError>)
      reads this
      requires Valid()
      requires var t := binFiles[location.binFileNo].tracks[location.trackInBin];
        && 1 in t.indices && t.startingLba <= t.indices[1] && t.startingLba <= location.binLocalLba
        && t.indices[1] - location.binLocalLba <= MAX_LBA
      ensures var t := binFiles[location.binFileNo].tracks[location.trackInBin];
        && (location.binLocalLba < t.indices[1] ==> r.Ok? && ToLba(r.value) == MAX_LBA - (t.indices[1] - location.binLocalLba))
        && (t.indices[1] <= location.binLocalLba < t.indices[1] + MAX_LBA ==> r.Ok? && ToLba(r.value) == location.binLocalLba - t.indices[1])
    {
      TrackLocalMsf(binFiles[location.binFileNo].tracks[location.trackInBin], location.binLocalLba)
    }

    /** `current_global_msf`: the address of the cursor's disc sector. */
    function CurrentGlobalMsf(): (r: Result<MsfIndex, ImageError>)
      reads this
      ensures r.Ok? <==> location.globalLba % LBA_WRAP < MAX_LBA
      ensures r.Ok? ==> r.value.Valid() && ToLba(r.value) == location.globalLba % LBA_WRAP
      ensures r.Err? ==> r.error == MsfError(OutOfRangeError)
    {
      AddressOf(location.globalLba)
    }

    /** `current_track_type`. */
    function CurrentTrackType(): (r: TrackType)
      reads this
      requires Valid()
      ensures r == binFiles[location.binFileNo].tracks[location.trackInBin].trackType
      ensures location.binFileNo == 0 && location.trackInBin == 0 ==> r == FirstTrackType()
    {
      binFiles[location.binFileNo].tracks[location.trackInBin].trackType
    }

    /** `first_track_type`. */
    function FirstTrackType(): (r: TrackType)
      reads this
      requires Valid()
      ensures r == binFiles[0].tracks[0].trackType
    {
      binFiles[0].tracks[0].trackType
    }

    /** `track_start`. The source unwraps the INDEX 01 of the track it finds. */
    method TrackStart(track: uint8) returns (r: Result<MsfIndex, ImageError>)
      requires track != 0 ==> IndexOnePresent(binFiles, track)
      ensures r == TrackStartMsf(binFiles, track)
    {
      var lba := CueLayout.TrackStart(binFiles, track);
      if lba.None? {
        return Err(ImageError.OutOfRange);
      }
      r := AddressOf(lba.value);
    }

    /** `set_location`: moves the cursor where `SeekTo` says, or leaves it
        where it was and reports `OutOfRange`. */
    method SetLocation(target: MsfIndex) returns (r: Result<(), ImageError>)
      requires Valid()
      modifies this
      ensures Valid()
      ensures r.Ok? <==> SeekTo(binFiles, ToLba(target)).Some?
      ensures r.Err? ==> r.error == ImageError.OutOfRange && location == old(location)
      ensures r.Ok? ==> location == SeekTo(binFiles, ToLba(target)).value
    {
      var targetLba: uint32 := ToLba(target);
      if targetLba < FIRST_TRACK_PREGAP {
        location := Location(0, 0, targetLba, 0);
        return Ok(());
      }
      var found := Locate(binFiles, targetLba - FIRST_TRACK_PREGAP);
      match found
      case None =>
        r := Err(ImageError.OutOfRange);
      case Some((b, j, off)) =>
        location := Location(b, j, targetLba, off);
        r := Ok(());
    }

    /** `set_location_to_track`. */
    method SetLocationToTrack(track: uint8) returns (r: Result<(), ImageError>)
      requires Valid() && (track != 0 ==> IndexOnePresent(binFiles, track))
      modifies this
      ensures Valid()
      ensures r.Ok? <==> SeekToTrack(binFiles, track).Ok?
      ensures r.Err? ==> r.error == SeekToTrack(binFiles, track).error && location == old(location)
      ensures r.Ok? ==> location == SeekToTrack(binFiles, track).value
    {
      var start := TrackStart(track);
      if start.Err? {
        return Err(start.error);
      }
      r := SetLocation(start.value);
    }

    /** `advance_position`: the cursor moves as `Advance` says. */
    method AdvancePosition() returns (r: Result<Option<Event>, ImageError>)
      requires Valid()
      modifies this
      ensures Valid()
      ensures (location, r) == (Advance(binFiles, old(location)).0, Ok(Advance(binFiles, old(location)).1))
    {
      if location.globalLba < FIRST_TRACK_PREGAP {
        location := location.(globalLba := location.globalLba + 1);
        return Ok(None);
      }
      var bin := binFiles[location.binFileNo];
      var t := bin.tracks[location.trackInBin];
      var trackEnd := WrapAdd(t.startingLba, t.numSectors);
      location := location.(globalLba := WrapAdd(location.globalLba, 1), binLocalLba := WrapAdd(location.binLocalLba, 1));
      if location.binLocalLba < trackEnd {
        r := Ok(None);
      } else if |bin.tracks| > location.trackInBin + 1 {
        location := location.(trackInBin := location.trackInBin + 1);
        r := Ok(Some(TrackChange));
      } else if |binFiles| > location.binFileNo + 1 {
        location := location.(binFileNo := location.binFileNo + 1, trackInBin := 0, binLocalLba := 0);
        r := Ok(Some(TrackChange));
      } else {
        r := Ok(Some(EndOfDisc));
      }
    }

    /** `copy_current_sector`, with `image` the bytes of the cursor's bin
        file: zeros inside the first track's pregap, else the bytes from the
        cursor's sector on, or `IoError` when the file ends first (the
        buffer is then left as it was). */
    method CopyCurrentSector(buf: array<uint8>, image: seq<uint8>) returns (r: Result<(), ImageError>)
      requires Valid() && |image| == binFiles[location.binFileNo].byteLen
      modifies buf
      ensures location.globalLba < FIRST_TRACK_PREGAP ==> r.Ok? && forall i :: 0 <= i < buf.Length ==> buf[i] == 0
      ensures location.globalLba >= FIRST_TRACK_PREGAP ==>
                var off := location.binLocalLba * SECTOR_BYTES;
                && (r.Ok? <==> off + buf.Length <= |image|)
                && (r.Ok? ==> buf[..] == image[off..off + buf.Length])
                && (r.Err? ==> r.error == ImageError.IoError && buf[..] == old(buf[..]))
      ensures buf.Length == SECTOR_BYTES && location.binLocalLba < NumSectors(binFiles[location.binFileNo]) ==> r.Ok?
    {
      if location.globalLba < FIRST_TRACK_PREGAP {
        var i := 0;
        while i < buf.Length
          invariant 0 <= i <= buf.Length
          invariant forall k :: 0 <= k < i ==> buf[k] == 0
        {
          buf[i] := 0;
          i := i + 1;
        }
        return Ok(());
      }
      var off := location.binLocalLba * SECTOR_BYTES;
      if off + buf.Length > |image| {
        return Err(ImageError.IoError);
      }
      forall i | 0 <= i < buf.Length {
        buf[i] := image[off + i];
      }
      r := Ok(());
    }
  }

  /** `_open`, with the cue sheet's text, the byte lengths of the files it
      names, and the bytes of the SBI file beside it if there is one: the
      parse of the sheet, and a cursor at the start of the disc. */
  method OpenCuesheet(text: string, files: map<string, nat>, sbi: Option<seq<uint8>>) returns (r: Result<Cuesheet, CueError>)
    ensures r.Ok? <==> CueOpen.Open(text, files).Ok?
    ensures r.Err? ==> r.error == CueOpen.Open(text, files).error
    ensures r.Ok? ==> && fresh(r.value) && r.value.Valid()
                      && r.value.binFiles == CueOpen.Open(text, files).value
                      && r.value.location == START && r.value.invalidSubqLbas == Sbi.SbiLbas(sbi)
                      && forall k :: 0 <= k < |r.value.binFiles| ==> CueOpen.Finished(r.value.binFiles[k])
  {
    var bins := CueOpen.ParseCue(text, files);
    if bins.Err? {
      return Err(bins.error);
    }
    var lbas: Option<set<nat>> := None;
    if sbi.Some? {
      var loaded := Sbi.LoadSbi(sbi.value);
      if loaded.Ok? {
        lbas := Some(loaded.value);
      }
    }
    var c := new Cuesheet(bins.value, lbas);
    r := Ok(c);
  }
}
