/** Track finalisation (`BinFile::finalize_tracks`, the same in src/cue.rs and
    src/lib.rs) and the disc-position arithmetic over the finished list of
    bin files that both cursor revisions share: the current track number, the
    start of a numbered track and the search behind `set_location`. */
module CueLayout {
  import opened Wrappers
  import opened Index
  import opened Disc
  import opened CueSheet

  const M: nat := U32_MODULUS

  // ---------------------------------------------------------------------
  // Finalisation

  predicate HasFirstIndex(t: Track) {
    0 in t.indices || 1 in t.indices
  }

  predicate AllHaveFirstIndex(ts: seq<Track>) {
    forall k :: 0 <= k < |ts| ==> HasFirstIndex(ts[k])
  }

  /** `Track::first_index_lba`: the sector of INDEX 00 when the track has one,
      otherwise that of INDEX 01. */
  function FirstIndexLba(t: Track): (r: nat)
    requires HasFirstIndex(t)
    ensures r in t.indices.Values
    ensures 0 in t.indices ==> r == t.indices[0]
    ensures 0 !in t.indices ==> r == t.indices[1]
  {
    var k: uint8 := if 0 in t.indices then 0 else 1;
    assert t.indices[k] in t.indices.Values;
    t.indices[k]
  }

  /** Why `finalize_tracks` fails on these tracks, if it does: no tracks; a
      track lacking INDEX 01 when there are two or more; or, for a single track
      with neither INDEX 00 nor INDEX 01, the panic of `first_index_lba`. */
  function FinalizeError(ts: seq<Track>): (r: Option<CueError>)
    ensures r.None? ==> ts != [] && AllHaveFirstIndex(ts)
  {
    if ts == [] then Some(CueError.NoTracks)
    else if |ts| >= 2 && exists i :: 0 <= i < |ts| && 1 !in ts[i].indices then Some(TrackWithoutIndex01)
    else if !HasFirstIndex(ts[|ts| - 1]) then Some(MissingIndexPanic)
    else None
  }

  /** The start a finalised track gets: the first track's start moved on by
      the distance between their first indices, wrapped like the `u32` sums. */
  function StartOf(ts: seq<Track>, i: nat): uint32
    requires i < |ts| && HasFirstIndex(ts[0]) && HasFirstIndex(ts[i])
  {
    (ts[0].startingLba + FirstIndexLba(ts[i]) - FirstIndexLba(ts[0])) % M
  }

  /** The length a finalised track gets: up to the next track's first index,
      and for the last track up to the end of the bin file. */
  function LengthOf(ts: seq<Track>, i: nat, binSectors: nat): uint32
    requires i < |ts| && HasFirstIndex(ts[i]) && (i + 1 < |ts| ==> HasFirstIndex(ts[i + 1]))
  {
    if i + 1 < |ts| then WrapSub(FirstIndexLba(ts[i + 1]), FirstIndexLba(ts[i]))
    else WrapSub(binSectors, FirstIndexLba(ts[i]))
  }

  /** The tracks as finalisation leaves them, stated for each track at once. */
  function Finalized(ts: seq<Track>, binSectors: nat): (r: seq<Track>)
    requires AllHaveFirstIndex(ts)
    ensures |r| == |ts|
  {
    seq(|ts|, i requires 0 <= i < |ts| =>
      ts[i].(startingLba := StartOf(ts, i), numSectors := LengthOf(ts, i, binSectors)))
  }

  /** Finalising keeps each track's type and indices; the start of the first track is unchanged. */
  lemma FinalizedKeeps(ts: seq<Track>, binSectors: nat)
    requires ts != [] && AllHaveFirstIndex(ts)
    ensures var r := Finalized(ts, binSectors);
      && AllHaveFirstIndex(r) && r[0].startingLba == ts[0].startingLba
      && forall i :: 0 <= i < |r| ==> r[i].trackType == ts[i].trackType && r[i].indices == ts[i].indices
  {
    assert ts[0].startingLba % M == ts[0].startingLba;
  }

  /** Finalising finalised tracks changes nothing: starts and lengths depend
      only on the indices and on the first track's start, which it keeps. */
  lemma FinalizedIdempotent(ts: seq<Track>, binSectors: nat)
    requires ts != [] && AllHaveFirstIndex(ts)
    ensures Finalized(Finalized(ts, binSectors), binSectors) == Finalized(ts, binSectors)
  {
    var r := Finalized(ts, binSectors);
    FinalizedKeeps(ts, binSectors);
    forall i | 0 <= i < |r|
      ensures Finalized(r, binSectors)[i] == r[i]
    {
      SameIndicesSameLayout(r, ts, i, binSectors);
    }
    assert Finalized(r, binSectors) == r;
  }

  /** Starts and lengths depend only on the indices and the first track's start. */
  lemma SameIndicesSameLayout(a: seq<Track>, b: seq<Track>, i: nat, binSectors: nat)
    requires |a| == |b| && i < |a| && AllHaveFirstIndex(a) && AllHaveFirstIndex(b)
    requires a[0].startingLba == b[0].startingLba
    requires forall j :: 0 <= j < |a| ==> a[j].indices == b[j].indices
    ensures StartOf(a, i) == StartOf(b, i) && LengthOf(a, i, binSectors) == LengthOf(b, i, binSectors)
  {
    assert FirstIndexLba(a[0]) == FirstIndexLba(b[0]);
    assert FirstIndexLba(a[i]) == FirstIndexLba(b[i]);
    if i + 1 < |a| {
      assert FirstIndexLba(a[i + 1]) == FirstIndexLba(b[i + 1]);
    }
  }

  /** What `finalize_tracks` does to a bin file. */
  function FinalizeSpec(b: BinFile): (r: Result<BinFile, CueError>)
    ensures b.tracks == [] ==> r == Err(CueError.NoTracks)
    ensures |b.tracks| >= 2 && (exists i :: 0 <= i < |b.tracks| && 1 !in b.tracks[i].indices)
            ==> r == Err(TrackWithoutIndex01)
    ensures r.Err? <==> FinalizeError(b.tracks).Some?
    ensures r.Ok? ==> && AllHaveFirstIndex(b.tracks)
                      && r.value == b.(tracks := Finalized(b.tracks, NumSectors(b)))
  {
    match FinalizeError(b.tracks)
    case Some(e) => Err(e)
    case None => Ok(b.(tracks := Finalized(b.tracks, NumSectors(b))))
  }

  /** `finalize_tracks`: walks the pairs of neighbouring tracks, checks both
      have INDEX 01, sets the first one's length and the second one's start,
      then sets the last track's length from the bin file's sector count. */
  method FinalizeTracks(b: BinFile) returns (r: Result<BinFile, CueError>)
    ensures r == FinalizeSpec(b)
  {
    if |b.tracks| == 0 {
      return Err(CueError.NoTracks);
    }
    ghost var ts := b.tracks;
    var tracks := b.tracks;
    var n := |tracks|;
    var i := 0;
    assert tracks == Progress(ts, 0);
    while i < n - 1
      invariant 0 <= i <= n - 1 && Checked(ts, i) && tracks == Progress(ts, i)
    {
      if 1 !in tracks[i].indices || 1 !in tracks[i + 1].indices {
        assert 1 !in ts[i].indices || 1 !in ts[i + 1].indices;
        return Err(TrackWithoutIndex01);
      }
      ProgressStep(ts, i);
      var length := WrapSub(FirstIndexLba(tracks[i + 1]), FirstIndexLba(tracks[i]));
      tracks := tracks[i := tracks[i].(numSectors := length)];
      tracks := tracks[i + 1 := tracks[i + 1].(startingLba := WrapAdd(tracks[i].startingLba, length))];
      i := i + 1;
    }
    var last := n - 1;
    if !HasFirstIndex(tracks[last]) {
      assert n == 1;
      return Err(MissingIndexPanic);
    }
    var binSectors := NumSectors(b);
    ProgressDone(ts, binSectors);
    tracks := tracks[last := tracks[last].(numSectors := WrapSub(binSectors, FirstIndexLba(tracks[last])))];
    r := Ok(b.(tracks := tracks));
  }

  /** Every track up to the i-th has INDEX 01, once the loop has checked a pair. */
  predicate Checked(ts: seq<Track>, i: nat) {
    i < |ts| && (i > 0 ==> forall k :: 0 <= k <= i ==> 1 in ts[k].indices)
  }

  /** The tracks after i turns of the loop: those before the i-th finalised
      except for the last one's length, the i-th with its start, the rest as given. */
  function Progress(ts: seq<Track>, i: nat): (p: seq<Track>)
    requires Checked(ts, i)
    ensures |p| == |ts|
  {
    seq(|ts|, k requires 0 <= k < |ts| =>
      if k < i then ts[k].(startingLba := StartOf(ts, k), numSectors := LengthOf(ts, k, 0))
      else if k == i && i > 0 then ts[k].(startingLba := StartOf(ts, k))
      else ts[k])
  }

  lemma ProgressStep(ts: seq<Track>, i: nat)
    requires i + 1 < |ts| && Checked(ts, i) && 1 in ts[i].indices && 1 in ts[i + 1].indices
    ensures Checked(ts, i + 1)
    ensures var p := Progress(ts, i);
      var length := WrapSub(FirstIndexLba(p[i + 1]), FirstIndexLba(p[i]));
      var q := p[i := p[i].(numSectors := length)];
      q[i + 1 := q[i + 1].(startingLba := WrapAdd(q[i].startingLba, length))] == Progress(ts, i + 1)
  {
    var p, p2 := Progress(ts, i), Progress(ts, i + 1);
    assert p[i] == ts[i].(startingLba := StartOf(ts, i)) by {
      if i == 0 {
        assert ts[0].startingLba % M == ts[0].startingLba;
      }
    }
    assert p[i + 1] == ts[i + 1];
    var length := WrapSub(FirstIndexLba(p[i + 1]), FirstIndexLba(p[i]));
    assert length == LengthOf(ts, i, 0);
    var q := p[i := p[i].(numSectors := length)];
    var s := q[i + 1 := q[i + 1].(startingLba := WrapAdd(q[i].startingLba, length))];
    StartStep(ts, i);
    forall k | 0 <= k < |ts|
      ensures s[k] == p2[k]
    {
      if k == i + 1 {
        assert s[k] == ts[k].(startingLba := StartOf(ts, k));
      }
    }
    assert s == p2;
  }

  /** The start of the next track is this one's start plus its length. */
  lemma StartStep(ts: seq<Track>, i: nat)
    requires i + 1 < |ts| && HasFirstIndex(ts[0]) && HasFirstIndex(ts[i]) && HasFirstIndex(ts[i + 1])
    ensures WrapAdd(StartOf(ts, i), LengthOf(ts, i, 0)) == StartOf(ts, i + 1)
  {
    AddMod(ts[0].startingLba + FirstIndexLba(ts[i]) - FirstIndexLba(ts[0]),
           FirstIndexLba(ts[i + 1]) - FirstIndexLba(ts[i]), M);
  }

  lemma ProgressDone(ts: seq<Track>, binSectors: nat)
    requires ts != [] && Checked(ts, |ts| - 1) && HasFirstIndex(ts[|ts| - 1])
    ensures AllHaveFirstIndex(ts) && FinalizeError(ts).None?
    ensures var p, last := Progress(ts, |ts| - 1), |ts| - 1;
      p[last := p[last].(numSectors := WrapSub(binSectors, FirstIndexLba(p[last])))] == Finalized(ts, binSectors)
  {
    var last := |ts| - 1;
    assert AllHaveFirstIndex(ts);
    assert Progress(ts, last)[last].startingLba == StartOf(ts, last) by {
      if last == 0 {
        assert ts[0].startingLba % M == ts[0].startingLba;
      }
    }
  }

  /** The finalised tracks satisfy the recurrence `finalize_tracks` applies:
      the first keeps its start, each length is the distance to the next
      first index (the last one's to the end of the bin file), each next start
      is the previous start plus length; types and indices are untouched. */
  lemma FinalizedRecurrence(ts: seq<Track>, binSectors: nat)
    requires ts != [] && AllHaveFirstIndex(ts)
    ensures var r := Finalized(ts, binSectors);
      && r[0].startingLba == ts[0].startingLba
      && (forall i :: 0 <= i < |r| - 1 ==>
            && r[i].numSectors == WrapSub(FirstIndexLba(ts[i + 1]), FirstIndexLba(ts[i]))
            && r[i + 1].startingLba == WrapAdd(r[i].startingLba, r[i].numSectors))
      && r[|r| - 1].numSectors == WrapSub(binSectors, FirstIndexLba(ts[|ts| - 1]))
      && (forall i :: 0 <= i < |r| ==> r[i].trackType == ts[i].trackType && r[i].indices == ts[i].indices)
  {
    var r := Finalized(ts, binSectors);
    assert ts[0].startingLba % M == ts[0].startingLba;
    forall i | 0 <= i < |r| - 1
      ensures r[i + 1].startingLba == WrapAdd(r[i].startingLba, r[i].numSectors)
    {
      StartStep(ts, i);
    }
  }

  /** The lengths of a run of tracks, added up. */
  function SumLengths(ts: seq<Track>): nat {
    if ts == [] then 0 else ts[0].numSectors + SumLengths(ts[1..])
  }

  lemma {:induction false} SumLengthsAppend(a: seq<Track>, b: seq<Track>)
    ensures SumLengths(a + b) == SumLengths(a) + SumLengths(b)
  {
    if a == [] {
      assert a + b == b;
    } else {
      assert (a + b)[1..] == a[1..] + b;
      SumLengthsAppend(a[1..], b);
    }
  }

  lemma SumLengthsStep(ts: seq<Track>, j: nat)
    requires j < |ts|
    ensures SumLengths(ts[..j + 1]) == SumLengths(ts[..j]) + ts[j].numSectors
  {
    assert ts[..j + 1] == ts[..j] + [ts[j]];
    SumLengthsAppend(ts[..j], [ts[j]]);
  }

  /** First indices that do not go down. */
  predicate Ascending(ts: seq<Track>)
    requires AllHaveFirstIndex(ts)
  {
    forall i, j :: 0 <= i <= j < |ts| ==> FirstIndexLba(ts[i]) <= FirstIndexLba(ts[j])
  }

  /** When the first track starts at sector 0, the first indices ascend and
      the bin file reaches the last one, nothing wraps: the tracks tile the bin
      file from the first track's first index on, each starts where the ones
      before it add up to, and all of them add up to the rest of the file. */
  lemma {:induction false} FinalizedTiling(ts: seq<Track>, binSectors: nat)
    requires ts != [] && AllHaveFirstIndex(ts) && Ascending(ts) && ts[0].startingLba == 0
    requires FirstIndexLba(ts[|ts| - 1]) <= binSectors < M
    ensures var r, f0 := Finalized(ts, binSectors), FirstIndexLba(ts[0]);
      && (forall i :: 0 <= i < |r| ==> r[i].startingLba == FirstIndexLba(ts[i]) - f0 == SumLengths(r[..i]))
      && (forall i :: 0 <= i < |r| - 1 ==> r[i].startingLba + r[i].numSectors == r[i + 1].startingLba)
      && SumLengths(r) == binSectors - f0
  {
    var r, f0 := Finalized(ts, binSectors), FirstIndexLba(ts[0]);
    forall i | 0 <= i < |r|
      ensures r[i].startingLba == FirstIndexLba(ts[i]) - f0
    {
      assert FirstIndexLba(ts[i]) - f0 < M;
    }
    forall i | 0 <= i < |r| - 1
      ensures r[i].numSectors == FirstIndexLba(ts[i + 1]) - FirstIndexLba(ts[i])
    {
    }
    assert r[|r| - 1].numSectors == binSectors - FirstIndexLba(ts[|ts| - 1]);
    SumPrefix(r, ts, binSectors, |r|);
  }

  lemma {:induction false} SumPrefix(r: seq<Track>, ts: seq<Track>, binSectors: nat, n: nat)
    requires |r| == |ts| && 0 < n <= |r| && AllHaveFirstIndex(ts)
    requires forall i :: 0 <= i < |r| ==> r[i].startingLba == FirstIndexLba(ts[i]) - FirstIndexLba(ts[0])
    requires forall i :: 0 <= i < |r| - 1 ==> r[i].numSectors == FirstIndexLba(ts[i + 1]) - FirstIndexLba(ts[i])
    requires r[|r| - 1].numSectors == binSectors - FirstIndexLba(ts[|ts| - 1])
    ensures forall i :: 0 <= i < n ==> SumLengths(r[..i]) == r[i].startingLba
    ensures n == |r| ==> SumLengths(r) == binSectors - FirstIndexLba(ts[0])
  {
    if n == 1 {
      assert r[..0] == [];
    } else {
      SumPrefix(r, ts, binSectors, n - 1);
      SumLengthsStep(r, n - 2);
    }
    if n == |r| {
      SumLengthsStep(r, n - 1);
      assert r[..n] == r;
    }
  }

  /** (x mod m + y mod m) mod m = (x + y) mod m. */
  lemma AddMod(x: int, y: int, m: int)
    requires m > 0
    ensures (x % m + y % m) % m == (x + y) % m
  {
    var qx, qy := x / m, y / m;
    assert x % m + y % m == (x + y) - (qx + qy) * m;
    ModShift(x + y, qx + qy, m);
  }

  /** Taking away a multiple of m does not change the remainder. */
  lemma ModShift(a: int, k: int, m: int)
    requires m > 0
    ensures (a - k * m) % m == a % m
  {
    var q, r := a / m, a % m;
    assert a - k * m == (q - k) * m + r;
    ModUnique(a - k * m, q - k, r, m);
  }

  /** q·m + r with 0 <= r < m has remainder r. */
  lemma ModUnique(a: int, q: int, r: int, m: int)
    requires m > 0 && 0 <= r < m && a == q * m + r
    ensures a % m == r
  {
    var q2, r2 := a / m, a % m;
    assert a == q2 * m + r2;
    assert (q - q2) * m == r2 - r;
    if q - q2 >= 1 {
    } else if q - q2 <= -1 {
    }
  }

  // ---------------------------------------------------------------------
  // Positions on the disc

  /** `Location`: the bin file and its track the cursor is in, the sector
      counted from the start of the disc and the one counted from the start
      of the bin file. */
  datatype Location = Location(binFileNo: nat, trackInBin: nat, globalLba: uint32, binLocalLba: uint32)

  /** The cursor's bin file and its track exist. */
  predicate InRange(bins: seq<BinFile>, loc: Location) {
    loc.binFileNo < |bins| && loc.trackInBin < |bins[loc.binFileNo].tracks|
  }

  predicate AllHaveTracks(bins: seq<BinFile>) {
    forall k :: 0 <= k < |bins| ==> bins[k].tracks != []
  }

  /** `num_tracks`: the tracks of all bin files together. */
  function NumTracks(bins: seq<BinFile>): nat {
    if bins == [] then 0 else |bins[0].tracks| + NumTracks(bins[1..])
  }

  /** The sectors of all bin files together, without wrapping. */
  function TotalSectors(bins: seq<BinFile>): nat {
    if bins == [] then 0 else NumSectors(bins[0]) + TotalSectors(bins[1..])
  }

  /** There are no tracks exactly when no bin file has one, and at least one
      per bin file when each has one. */
  lemma {:induction false} NumTracksCounts(bins: seq<BinFile>)
    ensures NumTracks(bins) == 0 <==> forall k :: 0 <= k < |bins| ==> bins[k].tracks == []
    ensures AllHaveTracks(bins) ==> NumTracks(bins) >= |bins|
  {
    if bins != [] {
      NumTracksCounts(bins[1..]);
      assert forall k :: 0 <= k < |bins| - 1 ==> bins[1..][k] == bins[k + 1];
    }
  }

  /** The disc holds no fewer sectors than any one of its bin files. */
  lemma {:induction false} TotalSectorsBound(bins: seq<BinFile>, k: nat)
    requires k < |bins|
    ensures NumSectors(bins[k]) <= TotalSectors(bins)
  {
    if k > 0 {
      TotalSectorsBound(bins[1..], k - 1);
    }
  }

  /** Track counts add up over consecutive runs of bin files. */
  lemma {:induction false} NumTracksAppend(a: seq<BinFile>, b: seq<BinFile>)
    ensures NumTracks(a + b) == NumTracks(a) + NumTracks(b)
  {
    if a == [] {
      assert a + b == b;
    } else {
      assert (a + b)[1..] == a[1..] + b;
      NumTracksAppend(a[1..], b);
    }
  }

  lemma {:induction false} TotalSectorsAppend(a: seq<BinFile>, b: seq<BinFile>)
    ensures TotalSectors(a + b) == TotalSectors(a) + TotalSectors(b)
  {
    if a == [] {
      assert a + b == b;
    } else {
      assert (a + b)[1..] == a[1..] + b;
      TotalSectorsAppend(a[1..], b);
    }
  }

  lemma NumTracksStep(bins: seq<BinFile>, i: nat)
    requires i < |bins|
    ensures NumTracks(bins[..i + 1]) == NumTracks(bins[..i]) + |bins[i].tracks|
    ensures TotalSectors(bins[..i + 1]) == TotalSectors(bins[..i]) + NumSectors(bins[i])
  {
    assert bins[..i + 1] == bins[..i] + [bins[i]];
    NumTracksAppend(bins[..i], [bins[i]]);
    TotalSectorsAppend(bins[..i], [bins[i]]);
  }

  /** `current_track`: the tracks of the bin files before this one, plus the
      track within this one, plus one, summed in `u8` (so modulo 256). */
  method CurrentTrack(bins: seq<BinFile>, loc: Location) returns (r: uint8)
    requires loc.binFileNo <= |bins|
    ensures r == (NumTracks(bins[..loc.binFileNo]) + loc.trackInBin + 1) % 256
  {
    var trackNo: uint8 := 0;
    var i := 1;
    while i <= loc.binFileNo
      invariant 1 <= i <= loc.binFileNo + 1
      invariant trackNo == NumTracks(bins[..i - 1]) % 256
    {
      NumTracksStep(bins, i - 1);
      AddMod(NumTracks(bins[..i - 1]), |bins[i - 1].tracks|, 256);
      trackNo := (trackNo + |bins[i - 1].tracks| % 256) % 256;
      i := i + 1;
    }
    AddMod(NumTracks(bins[..loc.binFileNo]), loc.trackInBin, 256);
    trackNo := (trackNo + loc.trackInBin % 256) % 256;
    AddMod(NumTracks(bins[..loc.binFileNo]) + loc.trackInBin, 1, 256);
    r := (trackNo + 1) % 256;
  }

  /** The first bin file of a prefix, and the rest of it. */
  lemma NumTracksCons(bins: seq<BinFile>, b: nat)
    requires 0 < b <= |bins|
    ensures NumTracks(bins[..b]) == |bins[0].tracks| + NumTracks(bins[1..][..b - 1])
  {
    assert bins[..b][1..] == bins[1..][..b - 1];
  }

  /** The bin file and the track in it that track number k (counted from 1)
      is: the first bin file whose tracks reach k, counting those before it. */
  function TrackSlot(bins: seq<BinFile>, k: nat): (r: Option<(nat, nat)>)
    requires k >= 1
    ensures r.Some? ==> && r.value.0 < |bins| && r.value.1 < |bins[r.value.0].tracks|
                        && NumTracks(bins[..r.value.0]) + r.value.1 + 1 == k
    ensures r.None? <==> k > NumTracks(bins)
    decreases |bins|
  {
    if bins == [] then None
    else if |bins[0].tracks| >= k then
      assert bins[..0] == [];
      Some((0, k - 1))
    else
      match TrackSlot(bins[1..], k - |bins[0].tracks|)
      case None => None
      case Some((b, j)) =>
        NumTracksCons(bins, b + 1);
        Some((b + 1, j))
  }

  /** A track number names one slot only. */
  lemma {:induction false} TrackSlotUnique(bins: seq<BinFile>, b: nat, j: nat)
    requires b < |bins| && j < |bins[b].tracks|
    ensures TrackSlot(bins, NumTracks(bins[..b]) + j + 1) == Some((b, j))
    decreases b
  {
    if b == 0 {
      assert bins[..0] == [];
    } else {
      NumTracksCons(bins, b);
      TrackSlotUnique(bins[1..], b - 1, j);
    }
  }

  /** The slot of track k has an INDEX 01, as `track_start` unwraps it. */
  predicate IndexOnePresent(bins: seq<BinFile>, k: nat)
    requires k >= 1
  {
    match TrackSlot(bins, k)
    case None => true
    case Some((b, j)) => 1 in bins[b].tracks[j].indices
  }

  /** What `track_start` computes, as a sector: for track 0 the sectors of
      the whole disc after the first two seconds; for a track k that exists,
      the sectors of the bin files before its own, plus its INDEX 01, plus 150;
      all of it summed in `u32`. None is the `OutOfRange` of the source. */
  function TrackStartLba(bins: seq<BinFile>, track: uint8): (r: Option<uint32>)
    requires track != 0 ==> IndexOnePresent(bins, track)
  {
    if track == 0 then Some((FIRST_TRACK_PREGAP + TotalSectors(bins)) % M)
    else
      match TrackSlot(bins, track)
      case None => None
      case Some((b, j)) => Some((TotalSectors(bins[..b]) + bins[b].tracks[j].indices[1] + FIRST_TRACK_PREGAP) % M)
  }

  /** The `u32` sum of the sectors of all bin files, from 150: `track_start(0)`. */
  method DiscEnd(bins: seq<BinFile>) returns (len: uint32)
    ensures len == (FIRST_TRACK_PREGAP + TotalSectors(bins)) % M
  {
    len := 150;
    var i := 0;
    while i < |bins|
      invariant 0 <= i <= |bins| && len == (150 + TotalSectors(bins[..i])) % M
    {
      SumStep(bins, i, 150);
      len := WrapAdd(len, NumSectors(bins[i]));
      i := i + 1;
    }
    assert bins[..|bins|] == bins;
  }

  /** One more bin file onto a `u32` sum of the sectors of those before it. */
  lemma SumStep(bins: seq<BinFile>, i: nat, base: nat)
    requires i < |bins|
    ensures WrapAdd((base + TotalSectors(bins[..i])) % M, NumSectors(bins[i])) == (base + TotalSectors(bins[..i + 1])) % M
  {
    NumTracksStep(bins, i);
    AddMod(base + TotalSectors(bins[..i]), NumSectors(bins[i]), M);
  }

  /** `track_start` fails exactly for a number above the track count, and
      for track 0 gives the end of the disc when that fits in `u32`. */
  lemma TrackStartLbaRange(bins: seq<BinFile>, track: uint8)
    requires track != 0 ==> IndexOnePresent(bins, track)
    ensures TrackStartLba(bins, track).None? <==> track > NumTracks(bins)
    ensures track == 0 && FIRST_TRACK_PREGAP + TotalSectors(bins) < M ==>
              TrackStartLba(bins, track) == Some(FIRST_TRACK_PREGAP + TotalSectors(bins))
  {
  }

  /** `track_start`, up to the conversion to an address: the loops over the bin files. */
  method TrackStart(bins: seq<BinFile>, track: uint8) returns (r: Option<uint32>)
    requires track != 0 ==> IndexOnePresent(bins, track)
    ensures r == TrackStartLba(bins, track)
  {
    if track == 0 {
      var len := DiscEnd(bins);
      return Some(len);
    }
    var binPos: uint32 := 0;
    var skipped: uint8 := 0;
    var i := 0;
    while i < |bins|
      invariant 0 <= i <= |bins|
      invariant skipped == NumTracks(bins[..i]) < track
      invariant binPos == TotalSectors(bins[..i]) % M
    {
      if |bins[i].tracks| >= track - skipped {
        var trackInBin := track - skipped - 1;
        StartOfSlot(bins, track, i, trackInBin);
        var indexOne := bins[i].tracks[trackInBin].indices[1];
        return Some(WrapAdd(WrapAdd(binPos, indexOne), 150));
      }
      NumTracksStep(bins, i);
      SumStep(bins, i, 0);
      skipped := skipped + |bins[i].tracks|;
      binPos := WrapAdd(binPos, NumSectors(bins[i]));
      i := i + 1;
    }
    assert bins[..|bins|] == bins;
    r := None;
  }

  /** The `u32` sums of `track_start` for a track found in bin file b. */
  lemma StartOfSlot(bins: seq<BinFile>, track: uint8, b: nat, j: nat)
    requires b < |bins| && j < |bins[b].tracks| && NumTracks(bins[..b]) + j + 1 == track
    requires IndexOnePresent(bins, track)
    ensures 1 in bins[b].tracks[j].indices
    ensures TrackStartLba(bins, track)
         == Some(WrapAdd(WrapAdd(TotalSectors(bins[..b]) % M, bins[b].tracks[j].indices[1]), FIRST_TRACK_PREGAP))
  {
    TrackSlotUnique(bins, b, j);
    WrapAddAfter(TotalSectors(bins[..b]), bins[b].tracks[j].indices[1], FIRST_TRACK_PREGAP);
  }

  /** Two `u32` additions onto a remainder are one addition, then the remainder. */
  lemma WrapAddAfter(a: nat, x: uint32, y: uint32)
    ensures WrapAdd(WrapAdd(a % M, x), y) == (a + x + y) % M
  {
    ModUnique(x, 0, x, M);
    ModUnique(y, 0, y, M);
    AddMod(a, x, M);
    var v: nat := (a + x) % M;
    assert WrapAdd(a % M, x) == v;
    AddMod(a + x, y, M);
    assert WrapAdd(v, y) == (a + x + y) % M;
  }

  // ---------------------------------------------------------------------
  // Seeking

  lemma SumLengthsFrom(ts: seq<Track>, j: nat, k: nat)
    requires j < k <= |ts|
    ensures SumLengths(ts[j..k]) == ts[j].numSectors + SumLengths(ts[j + 1..k])
  {
    assert ts[j..k][1..] == ts[j + 1..k];
  }

  /** The inner loop of `set_location` from track j on, with `left` sectors
      still to go: the first track longer than what is left once the tracks
      before it are taken away. */
  function FindTrack(ts: seq<Track>, j: nat, left: nat): (r: Option<nat>)
    requires j <= |ts|
    ensures r.Some? ==> && j <= r.value < |ts|
                        && SumLengths(ts[j..r.value]) <= left < SumLengths(ts[j..r.value]) + ts[r.value].numSectors
    ensures r.None? <==> SumLengths(ts[j..]) <= left
    decreases |ts| - j
  {
    if j == |ts| then
      None
    else if ts[j].numSectors > left then
      assert ts[j..j] == [];
      SumLengthsFrom(ts, j, |ts|);
      Some(j)
    else
      var r := FindTrack(ts, j + 1, left - ts[j].numSectors);
      SumLengthsFrom(ts, j, |ts|);
      if r.Some? then SumLengthsFrom(ts, j, r.value); r else r
  }

  /** The outer loop of `set_location` from bin file i on, with `left`
      sectors still to go. A bin file longer than that is searched track by
      track; when its tracks end before `left` does, the search goes on in the
      next bin file with only the tracks' lengths taken away. The result is
      the bin file, the track in it and the sector in the bin file. */
  function LocateFrom(bins: seq<BinFile>, i: nat, left: nat): (r: Option<(nat, nat, nat)>)
    requires i <= |bins|
    ensures r.Some? ==> && i <= r.value.0 < |bins| && r.value.1 < |bins[r.value.0].tracks|
                        && r.value.2 < NumSectors(bins[r.value.0])
    decreases |bins| - i
  {
    if i == |bins| then
      None
    else if NumSectors(bins[i]) > left then
      match FindTrack(bins[i].tracks, 0, left)
      case Some(j) => Some((i, j, left))
      case None =>
        assert bins[i].tracks[0..] == bins[i].tracks;
        LocateFrom(bins, i + 1, left - SumLengths(bins[i].tracks))
    else
      LocateFrom(bins, i + 1, left - NumSectors(bins[i]))
  }

  /** The search of `set_location`, for the sector `left` counted from the
      first sector the bin files hold. */
  method Locate(bins: seq<BinFile>, left0: uint32) returns (r: Option<(nat, nat, nat)>)
    ensures r == LocateFrom(bins, 0, left0)
  {
    var left: nat := left0;
    var i := 0;
    while i < |bins|
      invariant 0 <= i <= |bins| && LocateFrom(bins, i, left) == LocateFrom(bins, 0, left0)
    {
      var binSectors := NumSectors(bins[i]);
      if binSectors > left {
        var binOffset := left;
        var ts := bins[i].tracks;
        var j := 0;
        while j < |ts|
          invariant 0 <= j <= |ts| && left + SumLengths(ts[..j]) == binOffset
          invariant FindTrack(ts, j, left) == FindTrack(ts, 0, binOffset)
        {
          if ts[j].numSectors > left {
            return Some((i, j, binOffset));
          }
          SumLengthsStep(ts, j);
          left := left - ts[j].numSectors;
          j := j + 1;
        }
        assert ts[..|ts|] == ts;
      } else {
        left := left - binSectors;
      }
      i := i + 1;
    }
    r := None;
  }

  /** A bin file whose tracks follow one another from sector 0 and fill it,
      as finalising leaves it when the first track's first index is sector 0. */
  predicate Tiled(b: BinFile) {
    && SumLengths(b.tracks) == NumSectors(b)
    && forall j :: 0 <= j < |b.tracks| ==> b.tracks[j].startingLba == SumLengths(b.tracks[..j])
  }

  /** Finalising a bin file whose first track starts at sector 0 tiles it. */
  lemma FinalizeTiles(b: BinFile)
    requires FinalizeSpec(b).Ok? && Ascending(b.tracks) && b.tracks[0].startingLba == 0
    requires FirstIndexLba(b.tracks[0]) == 0
    requires FirstIndexLba(b.tracks[|b.tracks| - 1]) <= NumSectors(b) < M
    ensures Tiled(FinalizeSpec(b).value)
  {
    FinalizedTiling(b.tracks, NumSectors(b));
  }

  /** On tiled bin files the search finds a sector exactly when the bin files
      hold it, in the bin file and the track that contain it. */
  lemma {:induction false} LocateTiled(bins: seq<BinFile>, i: nat, left: nat)
    requires i <= |bins| && forall b :: 0 <= b < |bins| ==> Tiled(bins[b])
    ensures LocateFrom(bins, i, left).Some? <==> left < TotalSectors(bins[i..])
    ensures LocateFrom(bins, i, left).Some? ==>
              var (b, j, off) := LocateFrom(bins, i, left).value;
              && TotalSectors(bins[i..b]) + off == left
              && bins[b].tracks[j].startingLba <= off < bins[b].tracks[j].startingLba + bins[b].tracks[j].numSectors
    decreases |bins| - i
  {
    if i < |bins| {
      TotalSectorsCons(bins, i, |bins|);
      assert bins[i..|bins|] == bins[i..];
      if NumSectors(bins[i]) > left {
        LocateInBin(bins, i, left);
        assert bins[i..i] == [];
      } else {
        LocateTiled(bins, i + 1, left - NumSectors(bins[i]));
        if LocateFrom(bins, i, left).Some? {
          TotalSectorsCons(bins, i, LocateFrom(bins, i, left).value.0);
        }
      }
    }
  }

  /** A sector inside a tiled bin file is found in that bin file, inside the track found. */
  lemma LocateInBin(bins: seq<BinFile>, i: nat, left: nat)
    requires i < |bins| && Tiled(bins[i]) && left < NumSectors(bins[i])
    ensures LocateFrom(bins, i, left).Some?
    ensures var (b, j, off) := LocateFrom(bins, i, left).value;
              && b == i && off == left
              && bins[b].tracks[j].startingLba <= off < bins[b].tracks[j].startingLba + bins[b].tracks[j].numSectors
  {
    var ts := bins[i].tracks;
    assert ts[0..] == ts;
    var k := FindTrack(ts, 0, left);
    assert k.Some?;
    assert ts[0..k.value] == ts[..k.value];
  }

  predicate AllTiled(bins: seq<BinFile>) {
    forall b :: 0 <= b < |bins| ==> Tiled(bins[b])
  }

  /** Prefix sums of lengths do not go down. */
  lemma {:induction false} SumLengthsMonotone(ts: seq<Track>, a: nat, b: nat)
    requires a <= b <= |ts|
    ensures SumLengths(ts[..a]) <= SumLengths(ts[..b])
    decreases b - a
  {
    if a < b {
      SumLengthsStep(ts, b - 1);
      SumLengthsMonotone(ts, a, b - 1);
    }
  }

  /** In a tiled bin file a track ends where the next one starts, and the
      last one where the file ends. */
  lemma TrackEnd(b: BinFile, j: nat)
    requires Tiled(b) && j < |b.tracks|
    ensures var t := b.tracks[j];
      && t.startingLba + t.numSectors == SumLengths(b.tracks[..j + 1]) <= NumSectors(b)
      && (j + 1 < |b.tracks| ==> t.startingLba + t.numSectors == b.tracks[j + 1].startingLba)
      && (j + 1 == |b.tracks| ==> t.startingLba + t.numSectors == NumSectors(b))
  {
    SumLengthsStep(b.tracks, j);
    SumLengthsMonotone(b.tracks, j + 1, |b.tracks|);
    assert b.tracks[..|b.tracks|] == b.tracks;
  }

  /** The tracks of a tiled bin file do not overlap: a sector of track j is found in track j. */
  lemma FindTrackExact(b: BinFile, j: nat, off: nat)
    requires Tiled(b) && j < |b.tracks|
    requires b.tracks[j].startingLba <= off < b.tracks[j].startingLba + b.tracks[j].numSectors
    ensures FindTrack(b.tracks, 0, off) == Some(j)
  {
    var ts := b.tracks;
    TrackEnd(b, j);
    assert ts[0..] == ts;
    var k := FindTrack(ts, 0, off).value;
    assert ts[0..k] == ts[..k];
    SumLengthsStep(ts, k);
    if k < j {
      SumLengthsMonotone(ts, k + 1, j);
    } else if k > j {
      SumLengthsMonotone(ts, j + 1, k);
    }
  }

  lemma TotalSectorsCons(bins: seq<BinFile>, i: nat, b: nat)
    requires i < b <= |bins|
    ensures TotalSectors(bins[i..b]) == NumSectors(bins[i]) + TotalSectors(bins[i + 1..b])
  {
    assert bins[i..b][1..] == bins[i + 1..b];
  }

  /** On tiled bin files the search finds a sector of track j of bin file b
      where it is: in that bin file, that track, and the same sector of the file. */
  lemma {:induction false} LocateExact(bins: seq<BinFile>, i: nat, b: nat, j: nat, off: nat)
    requires i <= b < |bins| && AllTiled(bins) && j < |bins[b].tracks|
    requires bins[b].tracks[j].startingLba <= off < bins[b].tracks[j].startingLba + bins[b].tracks[j].numSectors
    ensures LocateFrom(bins, i, TotalSectors(bins[i..b]) + off) == Some((b, j, off))
    decreases b - i
  {
    TrackEnd(bins[b], j);
    if i == b {
      assert bins[i..b] == [];
      FindTrackExact(bins[b], j, off);
    } else {
      TotalSectorsCons(bins, i, b);
      LocateExact(bins, i + 1, b, j, off);
    }
  }

  // ---------------------------------------------------------------------
  // Positions inside a track

  /** `current_index` of src/cue.rs: 1 from the track's INDEX 01 on and 0
      before it (the cursor reports no other index). */
  function IndexAt(t: Track, binLocal: uint32): (r: uint8)
    requires 1 in t.indices
    ensures r == 0 || r == 1
    ensures r == 1 <==> t.indices[1] <= binLocal
  {
    if binLocal >= t.indices[1] then 1 else 0
  }

  /** `current_track_local_msf`: the position in the bin file relative to
      the track's INDEX 01, both first made relative to the track's start.
      The source's `u32` subtractions must not underflow, and the count-down
      before INDEX 01 must stay within 100 minutes. */
  function TrackLocalMsf(t: Track, binLocal: uint32): (r: Result<MsfIndex, ImageError>)
    requires 1 in t.indices && t.startingLba <= t.indices[1] && t.startingLba <= binLocal
    requires t.indices[1] - binLocal <= MAX_LBA
    ensures r.Ok? ==> r.value.Valid()
    ensures binLocal < t.indices[1] ==> r.Ok? && ToLba(r.value) == MAX_LBA - (t.indices[1] - binLocal)
    ensures t.indices[1] <= binLocal < t.indices[1] + MAX_LBA ==> r.Ok? && ToLba(r.value) == binLocal - t.indices[1]
    ensures t.indices[1] <= binLocal ==> (r.Ok? <==> (binLocal - t.indices[1]) % LBA_WRAP < MAX_LBA)
  {
    RelativeMsf(binLocal - t.startingLba, t.indices[1] - t.startingLba)
  }

  /** The index reported and the track-relative address agree: with index
      0 the address counts down to 100:00:00 at INDEX 01, with index 1 it
      counts up from 00:00:00, and at INDEX 01 itself it is 00:00:00. */
  lemma IndexMatchesLocalMsf(t: Track, binLocal: uint32)
    requires 1 in t.indices && t.startingLba <= t.indices[1] && t.startingLba <= binLocal
    requires t.indices[1] - binLocal <= MAX_LBA
    ensures IndexAt(t, binLocal) == 0 ==>
              TrackLocalMsf(t, binLocal).Ok? && ToLba(TrackLocalMsf(t, binLocal).value) + (t.indices[1] - binLocal) == MAX_LBA
    ensures IndexAt(t, binLocal) == 1 && binLocal - t.indices[1] < MAX_LBA ==>
              TrackLocalMsf(t, binLocal).Ok? && ToLba(TrackLocalMsf(t, binLocal).value) == binLocal - t.indices[1]
    ensures binLocal == t.indices[1] ==> TrackLocalMsf(t, binLocal) == Ok(MsfIndex(0, 0, 0))
  {
    if binLocal == t.indices[1] {
      ToLbaInjective(TrackLocalMsf(t, binLocal).value, MsfIndex(0, 0, 0));
    }
  }
}
