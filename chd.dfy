/** The CHD image back end of src/chd.rs on its single-threaded path: the
    track table that `from_chd` lays out from the CD track metadata, the
    mapping of a sector to its hunk and to its place inside that hunk, and
    the cursor that `set_location_lba`, `advance_position` and
    `copy_current_sector` move. The CHD library is not part of this model:
    its header is the hunk count and the hunk size, and its hunks are a map
    from hunk number to the decompressed bytes, a hunk it cannot produce
    being absent from the map. */
module Chd {
  import opened Wrappers
  import opened Index
  import opened Disc
  import Sbi

  /** Bytes one sector takes in a CD hunk: the raw sector and 96 bytes of subchannel data. */
  const BYTES_PER_SECTOR: nat := 2352 + 96

  /** `u32::MAX`, what an unset hunk number compares as. */
  const U32_MAX: nat := U32_MODULUS - 1

  /** One CD track record of the CHD metadata: the type name, the length in
      sectors, and the pregap when the metadata gives one. */
  datatype TrackInfo = TrackInfo(trackType: string, frames: uint32, pregap: Option<uint32>)

  /** A track of the table: its first sector on the disc, its type, the
      padding sectors of all the tracks before it, and its metadata. */
  datatype Track = Track(startLba: uint32, trackType: TrackType, paddingOffset: uint32, info: TrackInfo)

  /** The sector formats a CD CHD may hold. */
  function TrackTypeOf(name: string): (r: Option<TrackType>)
    ensures r.Some? <==> name == "MODE1_RAW" || name == "MODE2_RAW" || name == "AUDIO"
    ensures r == Some(Audio) <==> name == "AUDIO"
  {
    if name == "MODE1_RAW" then Some(Mode1)
    else if name == "MODE2_RAW" then Some(Mode2)
    else if name == "AUDIO" then Some(Audio)
    else None
  }

  // ---------------------------------------------------------------------
  // The track table

  /** The sectors that pad a track of `frames` sectors in the file up to a
      multiple of 4. */
  function Padding(frames: nat): (p: nat)
    ensures p < 4 && (frames + p) % 4 == 0
    ensures frames % 4 == 0 ==> p == 0
  {
    if frames % 4 > 0 then 4 - frames % 4 else 0
  }

  /** The sectors of the tracks `infos`. */
  function SumFrames(infos: seq<TrackInfo>): nat {
    if infos == [] then 0 else SumFrames(infos[..|infos| - 1]) + infos[|infos| - 1].frames
  }

  /** The padding sectors of the tracks `infos`. */
  function SumPadding(infos: seq<TrackInfo>): nat {
    if infos == [] then 0 else SumPadding(infos[..|infos| - 1]) + Padding(infos[|infos| - 1].frames)
  }

  /** The sums `from_chd` keeps in `u32` do not overflow. */
  predicate Fits(infos: seq<TrackInfo>) {
    FIRST_TRACK_PREGAP + SumFrames(infos) < U32_MODULUS && SumPadding(infos) < U32_MODULUS
  }

  /** `t` is the `k`-th entry `from_chd` makes from `infos`: it starts after
      the pregap and the tracks before it, and its padding offset is their padding. */
  predicate Entry(t: Track, infos: seq<TrackInfo>, k: nat)
    requires k < |infos|
  {
    && t.startLba == FIRST_TRACK_PREGAP + SumFrames(infos[..k])
    && t.paddingOffset == SumPadding(infos[..k])
    && t.info == infos[k]
    && TrackTypeOf(infos[k].trackType) == Some(t.trackType)
  }

  /** `tracks` is the table `from_chd` makes from `infos`. */
  predicate IsTable(tracks: seq<Track>, infos: seq<TrackInfo>) {
    |tracks| == |infos| && forall k :: 0 <= k < |tracks| ==> Entry(tracks[k], infos, k)
  }

  /** The sector after the last sector of `t`. */
  function End(t: Track): nat {
    t.startLba + t.info.frames
  }

  /** The shape of a track table, whatever metadata it came from: the first
      track starts after the pregap with no padding before it, each next
      track starts where the one before ends and adds that one's padding,
      and the disc ends inside `u32`. */
  predicate Laid(tracks: seq<Track>) {
    && tracks != []
    && tracks[0].startLba == FIRST_TRACK_PREGAP && tracks[0].paddingOffset == 0
    && (forall k :: 0 <= k < |tracks| - 1 ==>
          tracks[k + 1].startLba == End(tracks[k])
          && tracks[k + 1].paddingOffset == tracks[k].paddingOffset + Padding(tracks[k].info.frames))
    && End(tracks[|tracks| - 1]) < U32_MODULUS
  }

  /** The sector after the disc's last sector. */
  function DiscEnd(tracks: seq<Track>): nat
    requires tracks != []
  {
    End(tracks[|tracks| - 1])
  }

  /** A sector of a track: `start_lba <= lba < start_lba + frames`. */
  predicate Contains(t: Track, lba: nat) {
    t.startLba <= lba < End(t)
  }

  /** Sums over a prefix are at most the sums over the whole list. */
  lemma {:induction false} PrefixSums(infos: seq<TrackInfo>, i: nat)
    requires i <= |infos|
    ensures SumFrames(infos[..i]) <= SumFrames(infos)
    ensures SumPadding(infos[..i]) <= SumPadding(infos)
    decreases |infos| - i
  {
    if i < |infos| {
      PrefixSums(infos, i + 1);
      assert infos[..i + 1][..i] == infos[..i];
    } else {
      assert infos[..i] == infos;
    }
  }

  /** The sums over one more track. */
  lemma SumsStep(infos: seq<TrackInfo>, i: nat)
    requires i < |infos|
    ensures SumFrames(infos[..i + 1]) == SumFrames(infos[..i]) + infos[i].frames
    ensures SumPadding(infos[..i + 1]) == SumPadding(infos[..i]) + Padding(infos[i].frames)
  {
    assert infos[..i + 1][..i] == infos[..i];
  }

  /** Every table `from_chd` makes from fitting metadata has the shape of a track table. */
  lemma {:induction false} TableLaid(tracks: seq<Track>, infos: seq<TrackInfo>)
    requires IsTable(tracks, infos) && Fits(infos) && infos != []
    ensures Laid(tracks)
  {
    assert infos[..0] == [];
    forall k | 0 <= k < |tracks| - 1
      ensures tracks[k + 1].startLba == End(tracks[k])
      ensures tracks[k + 1].paddingOffset == tracks[k].paddingOffset + Padding(tracks[k].info.frames)
    {
      assert Entry(tracks[k], infos, k) && Entry(tracks[k + 1], infos, k + 1);
      assert infos[..k + 1][..k] == infos[..k];
    }
    var n := |infos|;
    assert Entry(tracks[n - 1], infos, n - 1);
    assert infos[..n][..n - 1] == infos[..n - 1];
    assert infos[..n] == infos;
  }

  /** Every track starts on a 4-sector boundary of the file: the sector
      before it on the disc, less the pregap, plus the padding of the tracks
      before it, is a multiple of 4. */
  lemma {:induction false} AlignedStart(tracks: seq<Track>, k: nat)
    requires Laid(tracks) && k < |tracks|
    ensures tracks[k].startLba >= FIRST_TRACK_PREGAP
    ensures (tracks[k].startLba - FIRST_TRACK_PREGAP + tracks[k].paddingOffset) % 4 == 0
  {
    if k > 0 {
      AlignedStart(tracks, k - 1);
      var t := tracks[k - 1];
      var a := t.startLba - FIRST_TRACK_PREGAP + t.paddingOffset;
      var b := t.info.frames + Padding(t.info.frames);
      assert tracks[k].startLba - FIRST_TRACK_PREGAP + tracks[k].paddingOffset == a + b;
      assert a == 4 * (a / 4) && b == 4 * (b / 4);
      assert a + b == 4 * (a / 4 + b / 4);
    }
  }

  /** An earlier track ends at or before a later one starts. */
  lemma {:induction false} EndsBefore(tracks: seq<Track>, j: nat, k: nat)
    requires Laid(tracks) && j < k < |tracks|
    ensures End(tracks[j]) <= tracks[k].startLba
    decreases k - j
  {
    if j + 1 < k {
      EndsBefore(tracks, j + 1, k);
      assert tracks[j + 1].startLba == End(tracks[j]);
    }
  }

  /** Every track of the table lies inside `[150, DiscEnd)`. */
  lemma ContainedOnDisc(tracks: seq<Track>, k: nat, lba: nat)
    requires Laid(tracks) && k < |tracks| && Contains(tracks[k], lba)
    ensures FIRST_TRACK_PREGAP <= lba < DiscEnd(tracks)
  {
    AlignedStart(tracks, k);
    if k < |tracks| - 1 {
      EndsBefore(tracks, k, |tracks| - 1);
    }
  }

  /** No sector belongs to two tracks. */
  lemma ContainingUnique(tracks: seq<Track>, j: nat, k: nat, lba: nat)
    requires Laid(tracks) && j < |tracks| && k < |tracks|
    requires Contains(tracks[j], lba) && Contains(tracks[k], lba)
    ensures j == k
  {
    if j < k {
      EndsBefore(tracks, j, k);
    } else if k < j {
      EndsBefore(tracks, k, j);
    }
  }

  // ---------------------------------------------------------------------
  // Which track holds a sector

  /** `tracks.iter().position(..)` from `from` on: the first track that holds `lba`. */
  function FirstContaining(tracks: seq<Track>, lba: nat, from: nat): (r: Option<nat>)
    requires from <= |tracks|
    ensures r.Some? ==> from <= r.value < |tracks| && Contains(tracks[r.value], lba)
    ensures r.Some? ==> forall j :: from <= j < r.value ==> !Contains(tracks[j], lba)
    ensures r.None? <==> forall j :: from <= j < |tracks| ==> !Contains(tracks[j], lba)
    decreases |tracks| - from
  {
    if from == |tracks| then None
    else if Contains(tracks[from], lba) then Some(from)
    else FirstContaining(tracks, lba, from + 1)
  }

  /** The track `update_current_track` moves the cursor to from track `ct`:
      `ct` itself when it holds `lba`, otherwise the first track that does,
      or none. */
  function Retarget(tracks: seq<Track>, ct: nat, lba: nat): (r: Option<nat>)
    requires ct < |tracks|
    ensures r.Some? ==> r.value < |tracks| && Contains(tracks[r.value], lba)
    ensures Contains(tracks[ct], lba) ==> r == Some(ct)
    ensures r.Some? && r.value != ct ==> forall j :: 0 <= j < r.value ==> !Contains(tracks[j], lba)
    ensures r.None? <==> forall j :: 0 <= j < |tracks| ==> !Contains(tracks[j], lba)
  {
    if Contains(tracks[ct], lba) then Some(ct) else FirstContaining(tracks, lba, 0)
  }

  /** From track `i` on, a sector before the disc's end is found. */
  lemma {:induction false} FindsFrom(tracks: seq<Track>, lba: nat, i: nat)
    requires Laid(tracks) && i < |tracks|
    requires tracks[i].startLba <= lba < DiscEnd(tracks)
    ensures FirstContaining(tracks, lba, i).Some?
    decreases |tracks| - i
  {
    if !Contains(tracks[i], lba) {
      assert i < |tracks| - 1;
      assert tracks[i + 1].startLba == End(tracks[i]);
      FindsFrom(tracks, lba, i + 1);
    }
  }

  /** On a laid table the cursor finds a track exactly for the sectors of
      the disc, `[150, DiscEnd)`, and the track it finds is the one track
      holding the sector, whichever track it moves from. */
  lemma RetargetOnDisc(tracks: seq<Track>, ct: nat, lba: nat)
    requires Laid(tracks) && ct < |tracks|
    ensures Retarget(tracks, ct, lba).Some? <==> FIRST_TRACK_PREGAP <= lba < DiscEnd(tracks)
    ensures forall k :: 0 <= k < |tracks| && Contains(tracks[k], lba) ==> Retarget(tracks, ct, lba) == Some(k)
  {
    var r := Retarget(tracks, ct, lba);
    if r.Some? {
      ContainedOnDisc(tracks, r.value, lba);
    }
    if FIRST_TRACK_PREGAP <= lba < DiscEnd(tracks) && !Contains(tracks[ct], lba) {
      FindsFrom(tracks, lba, 0);
    }
    forall k | 0 <= k < |tracks| && Contains(tracks[k], lba)
      ensures r == Some(k)
    {
      ContainingUnique(tracks, r.value, k, lba);
    }
  }

  /** What one sector on means for the track: inside a track the cursor
      stays on it, from its last sector it moves on to the next track when
      that one has sectors, and from the disc's last sector there is no track. */
  lemma NextSectorTrack(tracks: seq<Track>, ct: nat, lba: nat)
    requires Laid(tracks) && ct < |tracks| && Contains(tracks[ct], lba)
    ensures lba + 1 < End(tracks[ct]) ==> Retarget(tracks, ct, lba + 1) == Some(ct)
    ensures lba + 1 == End(tracks[ct]) && ct + 1 < |tracks| && tracks[ct + 1].info.frames > 0 ==>
              Retarget(tracks, ct, lba + 1) == Some(ct + 1)
    ensures lba + 1 == DiscEnd(tracks) ==> Retarget(tracks, ct, lba + 1).None?
  {
    RetargetOnDisc(tracks, ct, lba + 1);
  }

  // ---------------------------------------------------------------------
  // Where a sector is in the file

  /** The sector `lba` as a sector of the file: the pregap is not stored and
      the padding of the tracks before this one is (`u32` arithmetic). */
  function FileLba(t: Track, lba: uint32): (r: uint32)
    requires lba >= FIRST_TRACK_PREGAP
    ensures lba + t.paddingOffset < U32_MODULUS ==> r == lba - FIRST_TRACK_PREGAP + t.paddingOffset
  {
    WrapSub(WrapAdd(lba, t.paddingOffset), FIRST_TRACK_PREGAP)
  }

  /** `hunk_no_for_lba` as corrected: the hunk that holds the sector, which
      must be one of the image's `numHunks` hunks. */
  function HunkNoForLba(t: Track, lba: uint32, sectorsPerHunk: uint32, numHunks: uint32): (r: Result<uint32, ImageError>)
    requires sectorsPerHunk > 0
    ensures r.Ok? <==> lba >= FIRST_TRACK_PREGAP && FileLba(t, lba) / sectorsPerHunk < numHunks
    ensures r.Ok? ==> r.value < numHunks
    ensures r.Ok? ==> r.value * sectorsPerHunk <= FileLba(t, lba) < (r.value + 1) * sectorsPerHunk
    ensures r.Err? ==> r.error == ImageError.OutOfRange
  {
    if lba < FIRST_TRACK_PREGAP then Err(ImageError.OutOfRange)
    else
      var file := FileLba(t, lba);
      var h := file / sectorsPerHunk;
      assert file == h * sectorsPerHunk + file % sectorsPerHunk;
      if h >= numHunks then Err(ImageError.OutOfRange) else Ok(h)
  }

  /** `hunk_no_for_lba` as written: it refuses only hunk numbers above the
      hunk count. */
  function HunkNoForLbaAsWritten(t: Track, lba: uint32, sectorsPerHunk: uint32, numHunks: uint32): (r: Result<uint32, ImageError>)
    requires sectorsPerHunk > 0
    ensures r.Ok? <==> lba >= FIRST_TRACK_PREGAP && FileLba(t, lba) / sectorsPerHunk <= numHunks
  {
    if lba < FIRST_TRACK_PREGAP then Err(ImageError.OutOfRange)
    else
      var h := FileLba(t, lba) / sectorsPerHunk;
      if h > numHunks then Err(ImageError.OutOfRange) else Ok(h)
  }

  /** The two differ on exactly one hunk number: the hunk count itself,
      which names no hunk of the image. */
  lemma HunkNoAsWrittenAcceptsCount(t: Track, lba: uint32, sectorsPerHunk: uint32, numHunks: uint32, hunks: map<uint32, seq<uint8>>)
    requires sectorsPerHunk > 0 && lba >= FIRST_TRACK_PREGAP
    requires forall n :: n in hunks ==> n < numHunks
    ensures FileLba(t, lba) / sectorsPerHunk == numHunks ==>
              && HunkNoForLbaAsWritten(t, lba, sectorsPerHunk, numHunks) == Ok(numHunks)
              && numHunks !in hunks
              && HunkNoForLba(t, lba, sectorsPerHunk, numHunks) == Err(ImageError.OutOfRange)
    ensures FileLba(t, lba) / sectorsPerHunk != numHunks ==>
              HunkNoForLbaAsWritten(t, lba, sectorsPerHunk, numHunks) == HunkNoForLba(t, lba, sectorsPerHunk, numHunks)
  {
  }

  /** The byte at which `copy_current_sector` finds the sector in its hunk. */
  function SectorStart(t: Track, lba: uint32, sectorsPerHunk: uint32): (r: nat)
    requires lba >= FIRST_TRACK_PREGAP && sectorsPerHunk > 0
    ensures r % BYTES_PER_SECTOR == 0
    ensures r + SECTOR_BYTES <= sectorsPerHunk * BYTES_PER_SECTOR
  {
    var k := FileLba(t, lba) % sectorsPerHunk;
    assert k * BYTES_PER_SECTOR + SECTOR_BYTES <= (sectorsPerHunk - 1) * BYTES_PER_SECTOR + BYTES_PER_SECTOR;
    k * BYTES_PER_SECTOR
  }

  /** The hunk number and the place in the hunk address the sector's bytes
      in the decompressed image: hunk `h` holds bytes `[h * hunk_len, (h + 1) * hunk_len)`
      and the sector starts at byte `FileLba * 2448`. */
  lemma SectorAddress(t: Track, lba: uint32, sectorsPerHunk: uint32, numHunks: uint32)
    requires lba >= FIRST_TRACK_PREGAP && sectorsPerHunk > 0
    requires HunkNoForLba(t, lba, sectorsPerHunk, numHunks).Ok?
    ensures var h := HunkNoForLba(t, lba, sectorsPerHunk, numHunks).value;
            h * (sectorsPerHunk * BYTES_PER_SECTOR) + SectorStart(t, lba, sectorsPerHunk) == FileLba(t, lba) * BYTES_PER_SECTOR
  {
    var file := FileLba(t, lba);
    var h := file / sectorsPerHunk;
    var k := file % sectorsPerHunk;
    assert file == h * sectorsPerHunk + k;
    calc {
      h * (sectorsPerHunk * BYTES_PER_SECTOR) + k * BYTES_PER_SECTOR;
      (h * sectorsPerHunk + k) * BYTES_PER_SECTOR;
      file * BYTES_PER_SECTOR;
    }
  }

  // ---------------------------------------------------------------------
  // Audio byte order

  /** The byte that changes places with byte `k` of an `n`-byte buffer when
      adjacent pairs are swapped; a last odd byte stays. */
  function Mate(k: nat, n: nat): (r: nat)
    requires k < n
    ensures r < n
  {
    if k % 2 == 1 then k - 1 else if k + 1 < n then k + 1 else k
  }

  /** `buf.chunks_exact_mut(2)` with each pair swapped. */
  function Swapped(s: seq<uint8>): (r: seq<uint8>)
    ensures |r| == |s|
    ensures forall k :: 0 <= k < |s| - 1 && k % 2 == 0 ==> r[k] == s[k + 1] && r[k + 1] == s[k]
    ensures |s| % 2 == 1 ==> r[|s| - 1] == s[|s| - 1]
  {
    seq(|s|, k requires 0 <= k < |s| => s[Mate(k, |s|)])
  }

  /** Swapping the pairs twice gives the bytes back. */
  lemma SwappedTwice(s: seq<uint8>)
    ensures Swapped(Swapped(s)) == s
  {
    var r := Swapped(s);
    forall k | 0 <= k < |s|
      ensures Swapped(r)[k] == s[k]
    {
      assert Swapped(r)[k] == r[Mate(k, |s|)] == s[Mate(Mate(k, |s|), |s|)];
    }
  }

  /** The loop over `buf.chunks_exact_mut(2)` that swaps each pair in place. */
  method SwapBytePairs(buf: array<uint8>)
    modifies buf
    ensures buf[..] == Swapped(old(buf[..]))
  {
    var i := 0;
    while i + 1 < buf.Length
      invariant 0 <= i <= buf.Length && i % 2 == 0
      invariant forall k :: 0 <= k < i ==> buf[k] == old(buf[Mate(k, buf.Length)])
      invariant forall k :: i <= k < buf.Length ==> buf[k] == old(buf[k])
    {
      buf[i], buf[i + 1] := buf[i + 1], buf[i];
      i := i + 2;
    }
    assert forall k :: 0 <= k < buf.Length ==> buf[k] == old(buf[Mate(k, buf.Length)]);
  }

  // ---------------------------------------------------------------------
  // Index and track-relative addresses

  /** `pregap.unwrap_or(d)`. */
  function PregapOr(t: Track, d: uint32): (r: uint32)
    ensures t.info.pregap.None? ==> r == d
  {
    if t.info.pregap.Some? then t.info.pregap.value else d
  }

  /** The sector of the track's INDEX 01 as `track_start` and
      `current_track_local_msf` compute it: the pregap after the track's
      start, 150 sectors when the metadata gives none (`u32` arithmetic). */
  function Index01Lba(t: Track): (r: uint32)
    ensures t.startLba + PregapOr(t, 150) < U32_MODULUS ==> r == t.startLba + PregapOr(t, 150)
  {
    WrapAdd(t.startLba, PregapOr(t, 150))
  }

  /** `current_index` as corrected: 1 from the sector of INDEX 01 on, 0 before it. */
  function IndexAt(t: Track, lba: uint32): (r: uint8)
    ensures r == 0 || r == 1
    ensures lba >= t.startLba && t.startLba + PregapOr(t, 150) < U32_MODULUS ==>
              (r == 1 <==> lba - t.startLba >= PregapOr(t, 150))
  {
    if lba < Index01Lba(t) then 0 else 1
  }

  /** `current_index` as written: 1 once the sector is more than the given
      pregap (or 0) past the track's start, the difference taken in `u32`
      as a release build wraps it. */
  function IndexAtAsWritten(t: Track, lba: uint32): (r: uint8)
    ensures r == 0 || r == 1
    ensures lba >= t.startLba ==> (r == 1 <==> lba - t.startLba > PregapOr(t, 0))
    ensures lba < t.startLba ==> (r == 1 <==> U32_MODULUS - (t.startLba - lba) > PregapOr(t, 0))
  {
    if WrapSub(lba, t.startLba) > PregapOr(t, 0) then 1 else 0
  }

  /** `current_track_local_msf`: the address relative to INDEX 01, counting
      down from 100:00:00 before it. The source's `u32` subtraction needs the
      sector to be at most 100 minutes before INDEX 01. */
  function LocalMsf(t: Track, lba: uint32): (r: Result<MsfIndex, ImageError>)
    requires Index01Lba(t) - lba <= MAX_LBA
    ensures lba < Index01Lba(t) ==> r.Ok? && ToLba(r.value) + (Index01Lba(t) - lba) == MAX_LBA
    ensures lba >= Index01Lba(t) && lba - Index01Lba(t) < MAX_LBA ==> r.Ok? && ToLba(r.value) == lba - Index01Lba(t)
    ensures r.Ok? ==> r.value.Valid()
  {
    RelativeMsf(lba, Index01Lba(t))
  }

  /** The corrected index agrees with the relative address: index 0 is
      where the address counts down, index 1 where it counts up, and INDEX 01
      itself is 00:00:00 with index 1. */
  lemma IndexMatchesLocalMsf(t: Track, lba: uint32)
    requires Index01Lba(t) - lba <= MAX_LBA
    ensures IndexAt(t, lba) == 0 <==> LocalMsf(t, lba).Ok? && ToLba(LocalMsf(t, lba).value) > MAX_LBA - 1 - (Index01Lba(t) - lba) && lba < Index01Lba(t)
    ensures IndexAt(t, lba) == 1 && lba - Index01Lba(t) < MAX_LBA ==> ToLba(LocalMsf(t, lba).value) == lba - Index01Lba(t)
    ensures IndexAt(t, Index01Lba(t)) == 1 && LocalMsf(t, Index01Lba(t)) == Ok(MsfIndex(0, 0, 0))
  {
    var z := LocalMsf(t, Index01Lba(t));
    ToLbaInjective(z.value, MsfIndex(0, 0, 0));
  }

  /** As written, the first sector of INDEX 01 of a track whose pregap the
      metadata gives still reads as index 0, although `track_start` names it
      and its relative address is 00:00:00. */
  lemma IndexAsWrittenAtIndex01(t: Track)
    requires t.info.pregap.Some? && t.startLba + t.info.pregap.value < U32_MODULUS
    ensures IndexAtAsWritten(t, Index01Lba(t)) == 0
    ensures IndexAt(t, Index01Lba(t)) == 1 && LocalMsf(t, Index01Lba(t)) == Ok(MsfIndex(0, 0, 0))
  {
    IndexMatchesLocalMsf(t, Index01Lba(t));
  }

  /** As written, a track whose metadata gives no pregap reads as index 1
      from its second sector on, where the relative address still counts
      down to INDEX 01 150 sectors in. */
  lemma IndexAsWrittenWithoutPregap(t: Track, lba: uint32)
    requires t.info.pregap.None? && t.startLba + 150 < U32_MODULUS
    requires t.startLba < lba < t.startLba + 150
    ensures IndexAtAsWritten(t, lba) == 1 && IndexAt(t, lba) == 0
    ensures LocalMsf(t, lba).Ok? && ToLba(LocalMsf(t, lba).value) >= MAX_LBA - 150
  {
  }

  /** As written, a sector in the two-second pregap before the first track
      (the cursor is on track 1 there) takes its track-relative sector past
      zero: a panic in a debug build, index 1 in a release build. */
  lemma IndexAsWrittenBeforeDisc(t: Track, lba: uint32)
    requires t.startLba == FIRST_TRACK_PREGAP && lba < FIRST_TRACK_PREGAP && PregapOr(t, 150) <= MAX_LBA
    ensures IndexAtAsWritten(t, lba) == 1 && IndexAt(t, lba) == 0
  {
    assert WrapSub(lba, t.startLba) == U32_MODULUS - (FIRST_TRACK_PREGAP - lba);
  }

  /** Elsewhere the two agree: on a track whose pregap `p` the metadata
      gives, at any sector of the track other than the one `p` in. */
  lemma IndexAsWrittenAgrees(t: Track, lba: uint32)
    requires t.info.pregap.Some? && t.startLba + t.info.pregap.value < U32_MODULUS
    requires t.startLba <= lba && lba != Index01Lba(t)
    ensures IndexAtAsWritten(t, lba) == IndexAt(t, lba)
  {
  }

  /** `track_start`: track 0 is the disc's length, the pregap plus all the
      sectors the hunks hold (`u32` arithmetic); track `k` of the table is its
      INDEX 01; any other number is out of range. The track count is cut to a
      `u8` before the comparison. */
  function TrackStartOf(tracks: seq<Track>, numHunks: uint32, hunkLen: uint32, track: uint8): (r: Result<MsfIndex, ImageError>)
    ensures track == 0 ==> r == AddressOf(FIRST_TRACK_PREGAP + ((numHunks * hunkLen) % U32_MODULUS) / BYTES_PER_SECTOR)
    ensures 1 <= track <= |tracks| % 256 ==> r == AddressOf(Index01Lba(tracks[track - 1]))
    ensures track > |tracks| % 256 && track != 0 ==> r == Err(ImageError.OutOfRange)
  {
    if track == 0 then
      var len := (numHunks * hunkLen) % U32_MODULUS;
      assert len / BYTES_PER_SECTOR <= U32_MODULUS / BYTES_PER_SECTOR;
      AddressOf(FIRST_TRACK_PREGAP + len / BYTES_PER_SECTOR)
    else if track <= |tracks| % 256 then
      AddressOf(Index01Lba(tracks[track - 1]))
    else
      Err(ImageError.OutOfRange)
  }

  /** The bytes of `numHunks` hunks of `sectorsPerHunk` sectors, divided into sectors. */
  lemma HunkSectors(numHunks: nat, sectorsPerHunk: nat)
    requires numHunks * (sectorsPerHunk * BYTES_PER_SECTOR) < U32_MODULUS
    ensures ((numHunks * (sectorsPerHunk * BYTES_PER_SECTOR)) % U32_MODULUS) / BYTES_PER_SECTOR == numHunks * sectorsPerHunk
  {
    var len := numHunks * (sectorsPerHunk * BYTES_PER_SECTOR);
    var q := numHunks * sectorsPerHunk;
    assert len == q * BYTES_PER_SECTOR by {
      assert numHunks * (sectorsPerHunk * BYTES_PER_SECTOR) == (numHunks * sectorsPerHunk) * BYTES_PER_SECTOR;
    }
    assert len % U32_MODULUS == len;
    DivModUnique(len / BYTES_PER_SECTOR, len % BYTES_PER_SECTOR, q, 0, BYTES_PER_SECTOR);
  }

  /** Track 0 of an image whose hunks hold fewer than 2^32 bytes is the
      pregap plus every sector of every hunk. */
  lemma DiscLength(tracks: seq<Track>, numHunks: uint32, hunkLen: uint32, sectorsPerHunk: nat)
    requires hunkLen == sectorsPerHunk * BYTES_PER_SECTOR
    requires numHunks * hunkLen < U32_MODULUS
    ensures TrackStartOf(tracks, numHunks, hunkLen, 0) == AddressOf(FIRST_TRACK_PREGAP + numHunks * sectorsPerHunk)
  {
    HunkSectors(numHunks, sectorsPerHunk);
  }

  /** On the table `from_chd` makes, track `k` starts at its INDEX 01: the
      pregap, the sectors of the tracks before it, and its own pregap. */
  lemma TrackStartOfTable(tracks: seq<Track>, infos: seq<TrackInfo>, numHunks: uint32, hunkLen: uint32, k: uint8)
    requires IsTable(tracks, infos) && 1 <= k <= |tracks| < 256
    requires FIRST_TRACK_PREGAP + SumFrames(infos[..k - 1]) + PregapOr(tracks[k - 1], 150) < MAX_LBA
    ensures TrackStartOf(tracks, numHunks, hunkLen, k).Ok?
    ensures ToLba(TrackStartOf(tracks, numHunks, hunkLen, k).value)
         == FIRST_TRACK_PREGAP + SumFrames(infos[..k - 1]) + PregapOr(tracks[k - 1], 150)
  {
    assert Entry(tracks[k - 1], infos, k - 1);
  }

  /** Moving to a track's start lands inside that track, whichever track the
      cursor was on, when INDEX 01 lies inside the track: the track found for
      the sector is that track, the index there is 1 and the relative address
      00:00:00. */
  lemma TrackStartLands(tracks: seq<Track>, numHunks: uint32, hunkLen: uint32, ct: nat, k: uint8)
    requires Laid(tracks) && ct < |tracks| && 1 <= k <= |tracks| < 256
    requires tracks[k - 1].startLba + PregapOr(tracks[k - 1], 150) < MAX_LBA
    requires PregapOr(tracks[k - 1], 150) < tracks[k - 1].info.frames
    ensures TrackStartOf(tracks, numHunks, hunkLen, k).Ok?
    ensures var lba := ToLba(TrackStartOf(tracks, numHunks, hunkLen, k).value);
            && lba == Index01Lba(tracks[k - 1])
            && Retarget(tracks, ct, lba) == Some(k - 1 as nat)
            && IndexAt(tracks[k - 1], lba) == 1
            && LocalMsf(tracks[k - 1], lba) == Ok(MsfIndex(0, 0, 0))
  {
    var t := tracks[k - 1];
    RetargetOnDisc(tracks, ct, Index01Lba(t));
    IndexMatchesLocalMsf(t, Index01Lba(t));
  }

  /** With fewer than 256 tracks, the number `current_track` reports for
      track `ct` (from 0) is `ct + 1`, and `track_start` of that number is
      the INDEX 01 of track `ct`. */
  lemma TrackNumbering(tracks: seq<Track>, numHunks: uint32, hunkLen: uint32, ct: nat)
    requires ct < |tracks| < 256
    ensures (ct + 1) % 256 == ct + 1
    ensures TrackStartOf(tracks, numHunks, hunkLen, (ct + 1) as uint8) == AddressOf(Index01Lba(tracks[ct]))
  {
    assert |tracks| % 256 == |tracks|;
  }

  // ---------------------------------------------------------------------
  // The image

  /** The cursor part of a `ChdImage`: the sector, the track (from 0), the
      number of the hunk in the buffer when it is known good, and the buffer. */
  datatype Cursor = Cursor(lba: uint32, track: nat, hunkNo: Option<uint32>, hunk: seq<uint8>)

  class ChdImage {
    const tracks: seq<Track>
    const numHunks: uint32
    const hunkLen: uint32
    const sectorsPerHunk: uint32
    /** The decompressed hunks the CHD library produces, by hunk number. */
    const hunks: map<uint32, seq<uint8>>
    const invalidSubqLbas: Option<set<nat>>
    var hunk: seq<uint8>
    var currentHunkNo: Option<uint32>
    var currentLba: uint32
    var currentTrack: nat

    /** What `from_chd` establishes of the constant part: a laid track table,
        hunks a whole number of sectors long, and hunks numbered below the
        hunk count. */
    predicate Geometry() {
      && Laid(tracks)
      && sectorsPerHunk > 0 && hunkLen == sectorsPerHunk * BYTES_PER_SECTOR
      && forall n :: n in hunks ==> n < numHunks && |hunks[n]| == hunkLen
    }

    /** A cursor in step with the image: its track is in the table, its
        buffer is a hunk long, and a hunk number it holds is the hunk
        `hunk_no_for_lba` gives for its sector, with that hunk in the buffer.
        The one hunk number held that names no hunk is `u32::MAX` when the
        image has that many hunks: `set_location_lba` compares the new hunk
        number with `u32::MAX` when it holds none, and then skips the read. */
    predicate Settled(c: Cursor) {
      && c.track < |tracks|
      && |c.hunk| == hunkLen
      && (c.hunkNo.Some? ==>
            && c.lba >= FIRST_TRACK_PREGAP && sectorsPerHunk > 0
            && HunkNoForLbaAsWritten(tracks[c.track], c.lba, sectorsPerHunk, numHunks) == Ok(c.hunkNo.value)
            && (c.hunkNo.value in hunks ==> c.hunk == hunks[c.hunkNo.value])
            && (c.hunkNo.value !in hunks ==> c.hunkNo.value == numHunks == U32_MAX))
    }

    function State(): Cursor
      reads this
    {
      Cursor(currentLba, currentTrack, currentHunkNo, hunk)
    }

    predicate Valid()
      reads this
    {
      Geometry() && Settled(State())
    }

    constructor (ts: seq<Track>, count: uint32, len: uint32, data: map<uint32, seq<uint8>>, sbi: Option<set<nat>>)
      requires Laid(ts) && len > 0 && len % BYTES_PER_SECTOR == 0
      requires forall n :: n in data ==> n < count && |data[n]| == len
      requires 0 in data
      ensures Valid()
      ensures tracks == ts && numHunks == count && hunkLen == len && sectorsPerHunk == len / BYTES_PER_SECTOR
      ensures hunks == data && invalidSubqLbas == sbi
      ensures currentLba == FIRST_TRACK_PREGAP && currentTrack == 0 && currentHunkNo == Some(0) && hunk == data[0]
    {
      tracks := ts;
      numHunks := count;
      hunkLen := len;
      sectorsPerHunk := len / BYTES_PER_SECTOR;
      hunks := data;
      invalidSubqLbas := sbi;
      hunk := data[0];
      currentHunkNo := Some(0);
      currentLba := FIRST_TRACK_PREGAP;
      currentTrack := 0;
    }

    /** `set_location_lba` on a cursor, as a value: the sector is always
        stored and the hunk number cleared; before the disc the track is the
        first; otherwise the track is moved to the one holding the sector,
        the sector's hunk is looked up with `hunk_no_for_lba` as written, and
        read unless it is the hunk already in the buffer. A hunk number equal
        to the hunk count passes the look-up and fails the read. */
    function Relocated(c: Cursor, lba: uint32): (r: (Cursor, Result<(), ImageError>))
      requires Geometry() && c.track < |tracks|
      ensures r.0.lba == lba && r.0.track < |tracks|
      ensures Settled(c) ==> Settled(r.0)
      ensures r.1.Err? ==> r.0.hunkNo.None?
      ensures lba < FIRST_TRACK_PREGAP ==> r.1.Ok? && r.0.track == 0 && r.0.hunkNo.None? && r.0.hunk == c.hunk
      ensures lba >= FIRST_TRACK_PREGAP ==>
                r.0.track == (if Retarget(tracks, c.track, lba).Some? then Retarget(tracks, c.track, lba).value else c.track)
      ensures lba >= FIRST_TRACK_PREGAP && r.1.Ok? ==>
                Contains(tracks[r.0.track], lba) && r.0.hunkNo == Some(FileLba(tracks[r.0.track], lba) / sectorsPerHunk)
      ensures r.1 == Err(ImageError.OutOfRange) <==>
                lba >= FIRST_TRACK_PREGAP
                && (Retarget(tracks, c.track, lba).None?
                    || HunkNoForLbaAsWritten(tracks[Retarget(tracks, c.track, lba).value], lba, sectorsPerHunk, numHunks).Err?)
      ensures r.1.Err? && r.1.error != ImageError.OutOfRange ==>
                r.1.error == ImageError.Chd(ChdError) && r.0.hunkNo.None?
                && HunkNoForLbaAsWritten(tracks[r.0.track], lba, sectorsPerHunk, numHunks).value !in hunks
    {
      if lba < FIRST_TRACK_PREGAP then (Cursor(lba, 0, None, c.hunk), Ok(()))
      else match Retarget(tracks, c.track, lba)
        case None => (Cursor(lba, c.track, None, c.hunk), Err(ImageError.OutOfRange))
        case Some(k) =>
          match HunkNoForLbaAsWritten(tracks[k], lba, sectorsPerHunk, numHunks)
          case Err(e) => (Cursor(lba, k, None, c.hunk), Err(e))
          case Ok(h) =>
            var previous := if c.hunkNo.Some? then c.hunkNo.value else U32_MAX;
            if h == previous then (Cursor(lba, k, Some(h), c.hunk), Ok(()))
            else if h in hunks then (Cursor(lba, k, Some(h), hunks[h]), Ok(()))
            else (Cursor(lba, k, None, c.hunk), Err(ImageError.Chd(ChdError)))
    }

    /** From a settled cursor, a sector whose hunk number is the hunk count
        (of an image with fewer than `u32::MAX` hunks) passes `hunk_no_for_lba`
        as written and then fails the read with a CHD error, where the
        corrected look-up reports it out of range. */
    lemma RelocatedPastLastHunk(c: Cursor, lba: uint32)
      requires Geometry() && Settled(c) && lba >= FIRST_TRACK_PREGAP && numHunks < U32_MAX
      requires Retarget(tracks, c.track, lba).Some?
      requires FileLba(tracks[Retarget(tracks, c.track, lba).value], lba) / sectorsPerHunk == numHunks
      ensures Relocated(c, lba).1 == Err(ImageError.Chd(ChdError))
      ensures HunkNoForLba(tracks[Retarget(tracks, c.track, lba).value], lba, sectorsPerHunk, numHunks) == Err(ImageError.OutOfRange)
    {
      HunkNoAsWrittenAcceptsCount(tracks[Retarget(tracks, c.track, lba).value], lba, sectorsPerHunk, numHunks, hunks);
    }

    /** `num_tracks`. */
    function TrackCount(): (r: nat)
      ensures r == |tracks|
    {
      |tracks|
    }

    /** `current_subchannel_q_valid`: false exactly on the sectors the SBI file lists. */
    function SubchannelQValid(): (r: bool)
      reads this
      ensures r <==> invalidSubqLbas.None? || currentLba !in invalidSubqLbas.value
    {
      match invalidSubqLbas
      case None => true
      case Some(lbas) => currentLba !in lbas
    }

    /** `current_track`: the track's number counted from 1, in `u8`; it is
        the number `track_start` knows the track by. */
    function CurrentTrack(): (r: Result<uint8, ImageError>)
      reads this
      requires Valid()
      ensures r.Ok? && r.value == (currentTrack + 1) % 256
    {
      Ok((currentTrack + 1) % 256)
    }

    /** `current_index`, as written: on a sector of the track, index 1 once
        the sector is more than the given pregap (or none) past the track's start. */
    function CurrentIndex(): (r: Result<uint8, ImageError>)
      reads this
      requires Valid()
      ensures r.Ok? && r.value == IndexAtAsWritten(tracks[currentTrack], currentLba)
      ensures var t := tracks[currentTrack];
              currentLba >= t.startLba ==> (r.value == 1 <==> currentLba - t.startLba > PregapOr(t, 0))
    {
      Ok(IndexAtAsWritten(tracks[currentTrack], currentLba))
    }

    /** `current_track_local_msf`. */
    function CurrentTrackLocalMsf(): (r: Result<MsfIndex, ImageError>)
      reads this
      requires Valid() && Index01Lba(tracks[currentTrack]) - currentLba <= MAX_LBA
      ensures r == LocalMsf(tracks[currentTrack], currentLba)
    {
      LocalMsf(tracks[currentTrack], currentLba)
    }

    /** `current_global_msf`: the address of the cursor's sector. */
    function CurrentGlobalMsf(): (r: Result<MsfIndex, ImageError>)
      reads this
      ensures r.Ok? ==> ToLba(r.value) == currentLba % LBA_WRAP
      ensures currentLba < MAX_LBA ==> r.Ok? && ToLba(r.value) == currentLba
    {
      AddressOf(currentLba)
    }

    /** `current_track_type`. */
    function CurrentTrackType(): (r: Result<TrackType, ImageError>)
      reads this
      requires Valid()
      ensures r == Ok(tracks[currentTrack].trackType)
    {
      Ok(tracks[currentTrack].trackType)
    }

    /** `first_track_type`: `from_chd` refuses a CHD without tracks, so there is one. */
    function FirstTrackType(): (r: TrackType)
      requires Geometry()
      ensures r == tracks[0].trackType
    {
      tracks[0].trackType
    }

    /** `track_start`. */
    function TrackStart(track: uint8): (r: Result<MsfIndex, ImageError>)
      requires Geometry()
      ensures r == TrackStartOf(tracks, numHunks, hunkLen, track)
    {
      TrackStartOf(tracks, numHunks, hunkLen, track)
    }

    /** `read_hunk`: the CHD library's decompression of hunk `hunkNo` into the buffer. */
    method ReadHunk(hunkNo: uint32) returns (r: Result<(), ImageError>)
      modifies this`hunk
      ensures r.Ok? <==> hunkNo in hunks
      ensures r.Ok? ==> hunk == hunks[hunkNo]
      ensures r.Err? ==> r.error == ImageError.Chd(ChdError) && hunk == old(hunk)
    {
      if hunkNo in hunks {
        hunk := hunks[hunkNo];
        r := Ok(());
      } else {
        r := Err(ImageError.Chd(ChdError));
      }
    }

    /** `update_current_track`, called by `set_location_lba` once the hunk
        number is cleared. */
    method UpdateCurrentTrack(lba: uint32) returns (r: Result<(), ImageError>)
      requires Valid() && currentHunkNo.None?
      modifies this`currentTrack
      ensures Valid()
      ensures Retarget(tracks, old(currentTrack), lba).Some? ==>
                r.Ok? && currentTrack == Retarget(tracks, old(currentTrack), lba).value
      ensures Retarget(tracks, old(currentTrack), lba).None? ==>
                r == Err(ImageError.OutOfRange) && currentTrack == old(currentTrack)
    {
      if Contains(tracks[currentTrack], lba) {
        return Ok(());
      }
      var i := 0;
      while i < |tracks|
        invariant 0 <= i <= |tracks|
        invariant forall j :: 0 <= j < i ==> !Contains(tracks[j], lba)
      {
        if Contains(tracks[i], lba) {
          currentTrack := i;
          return Ok(());
        }
        i := i + 1;
      }
      r := Err(ImageError.OutOfRange);
    }

    /** `set_location_lba`. */
    method SetLocationLba(lba: uint32) returns (r: Result<(), ImageError>)
      requires Valid()
      modifies this
      ensures Valid()
      ensures (State(), r) == Relocated(old(State()), lba)
    {
      currentLba := lba;
      var previous := currentHunkNo;
      currentHunkNo := None;
      if lba < FIRST_TRACK_PREGAP {
        currentTrack := 0;
        return Ok(());
      }
      var moved := UpdateCurrentTrack(lba);
      if moved.Err? {
        return Err(moved.error);
      }
      var h := HunkNoForLbaAsWritten(tracks[currentTrack], lba, sectorsPerHunk, numHunks);
      if h.Err? {
        return Err(h.error);
      }
      if h.value != (if previous.Some? then previous.value else U32_MAX) {
        var read := ReadHunk(h.value);
        if read.Err? {
          return read;
        }
      }
      currentHunkNo := Some(h.value);
      r := Ok(());
    }

    /** `set_location`: the cursor to sector `to_lba(target)`. */
    method SetLocation(target: MsfIndex) returns (r: Result<(), ImageError>)
      requires Valid()
      modifies this
      ensures Valid()
      ensures ToLba(target) < U32_MODULUS && (State(), r) == Relocated(old(State()), ToLba(target))
    {
      r := SetLocationLba(ToLba(target));
    }

    /** `set_location_to_track`: the cursor to `track_start(track)`. */
    method SetLocationToTrack(track: uint8) returns (r: Result<(), ImageError>)
      requires Valid()
      modifies this
      ensures Valid()
      ensures TrackStart(track).Err? ==> r == Err(TrackStart(track).error) && unchanged(this)
      ensures TrackStart(track).Ok? ==> (State(), r) == Relocated(old(State()), ToLba(TrackStart(track).value))
    {
      var start := TrackStart(track);
      if start.Err? {
        return Err(start.error);
      }
      r := SetLocation(start.value);
    }

    /** `advance_position`: one sector on; running off the disc is the end
        of the disc, a new track is a track change, other errors pass through. */
    method AdvancePosition() returns (r: Result<Option<Event>, ImageError>)
      requires Valid()
      modifies this
      ensures Valid()
      ensures var next := Relocated(old(State()), WrapAdd(old(currentLba), 1));
              && State() == next.0
              && (next.1 == Err(ImageError.OutOfRange) ==> r == Ok(Some(EndOfDisc)))
              && (next.1.Err? && next.1.error != ImageError.OutOfRange ==> r == Err(next.1.error))
              && (next.1.Ok? ==> r == Ok(if currentTrack != old(currentTrack) then Some(TrackChange) else None))
    {
      var oldTrack := currentTrack;
      var res := SetLocationLba(WrapAdd(currentLba, 1));
      if res.Err? {
        if res.error == ImageError.OutOfRange {
          r := Ok(Some(EndOfDisc));
        } else {
          r := Err(res.error);
        }
      } else if currentTrack != oldTrack {
        r := Ok(Some(TrackChange));
      } else {
        r := Ok(None);
      }
    }

    /** `copy_current_sector`: the 2352 bytes of the cursor's sector from the
        hunk in the buffer, read again first when the last read failed, with
        the byte pairs of an audio sector swapped; zeros before the disc. The
        place in the hunk is taken with the track the cursor was on. */
    method CopyCurrentSector(buf: array<uint8>) returns (r: Result<(), ImageError>)
      requires Valid()
      modifies this, buf
      ensures Valid()
      ensures buf.Length != SECTOR_BYTES ==>
                r == Err(ImageError.Chd(WrongBufferSize)) && unchanged(this) && buf[..] == old(buf[..])
      ensures buf.Length == SECTOR_BYTES && old(currentLba) < FIRST_TRACK_PREGAP ==>
                r == Ok(()) && unchanged(this) && forall i :: 0 <= i < buf.Length ==> buf[i] == 0
      ensures buf.Length == SECTOR_BYTES && old(currentLba) >= FIRST_TRACK_PREGAP ==>
                var start := SectorStart(tracks[old(currentTrack)], old(currentLba), sectorsPerHunk);
                var next := if old(currentHunkNo).Some? then (old(State()), Ok(())) else Relocated(old(State()), old(currentLba));
                && State() == next.0
                && (next.1.Err? ==> r == next.1 && buf[..] == old(buf[..]))
                && (next.1.Ok? ==>
                      && r == Ok(())
                      && currentHunkNo == Some(FileLba(tracks[currentTrack], currentLba) / sectorsPerHunk)
                      && buf[..] == (if tracks[currentTrack].trackType == Audio then Swapped(hunk[start..start + SECTOR_BYTES])
                                     else hunk[start..start + SECTOR_BYTES]))
    {
      if buf.Length != SECTOR_BYTES {
        return Err(ImageError.Chd(WrongBufferSize));
      }
      if currentLba < FIRST_TRACK_PREGAP {
        var i := 0;
        while i < buf.Length
          invariant 0 <= i <= buf.Length
          invariant forall k :: 0 <= k < i ==> buf[k] == 0
          modifies buf
        {
          buf[i] := 0;
          i := i + 1;
        }
        return Ok(());
      }
      var start := SectorStart(tracks[currentTrack], currentLba, sectorsPerHunk);
      if currentHunkNo.None? {
        var retry := SetLocationLba(currentLba);
        if retry.Err? {
          return retry;
        }
      }
      // The hunk in the buffer is the sector's hunk.
      assert currentHunkNo == Some(HunkNoForLbaAsWritten(tracks[currentTrack], currentLba, sectorsPerHunk, numHunks).value);
      forall i | 0 <= i < SECTOR_BYTES {
        buf[i] := hunk[start + i];
      }
      assert buf[..] == hunk[start..start + SECTOR_BYTES];
      if CurrentTrackType().value == Audio {
        SwapBytePairs(buf);
      }
      r := Ok(());
    }
  }

  /** The sums `from_chd` keeps over one more track of fitting metadata stay inside `u32`. */
  lemma StepFits(infos: seq<TrackInfo>, i: nat)
    requires Fits(infos) && i < |infos|
    ensures SumFrames(infos[..i + 1]) == SumFrames(infos[..i]) + infos[i].frames
    ensures SumPadding(infos[..i + 1]) == SumPadding(infos[..i]) + Padding(infos[i].frames)
    ensures FIRST_TRACK_PREGAP + SumFrames(infos[..i]) + infos[i].frames < U32_MODULUS
    ensures SumPadding(infos[..i]) + Padding(infos[i].frames) < U32_MODULUS
  {
    PrefixSums(infos, i + 1);
    SumsStep(infos, i);
  }

  /** Appending the next entry to the first entries of a table. */
  lemma AppendEntry(tracks: seq<Track>, infos: seq<TrackInfo>, t: Track)
    requires |tracks| < |infos|
    requires forall k :: 0 <= k < |tracks| ==> Entry(tracks[k], infos, k)
    requires Entry(t, infos, |tracks|)
    ensures forall k :: 0 <= k < |tracks| + 1 ==> Entry((tracks + [t])[k], infos, k)
  {
  }

  /** Track `k` is the first whose sector format is not one a CD CHD may hold. */
  predicate FirstUnsupported(infos: seq<TrackInfo>, k: nat) {
    && k < |infos| && TrackTypeOf(infos[k].trackType).None?
    && forall j :: 0 <= j < k ==> TrackTypeOf(infos[j].trackType).Some?
  }

  /** The loop of `from_chd` over the track records: each track starts
      where the one before ends, after the pregap, and records the padding
      of the tracks before it; the first record of an unknown format stops it. */
  method LayTracks(infos: seq<TrackInfo>) returns (r: Result<seq<Track>, ChdImageError>)
    requires Fits(infos)
    ensures r.Ok? <==> forall k :: 0 <= k < |infos| ==> TrackTypeOf(infos[k].trackType).Some?
    ensures r.Ok? ==> IsTable(r.value, infos)
    ensures forall k: nat :: FirstUnsupported(infos, k) ==> r == Err(UnsupportedSectorFormat(infos[k].trackType))
  {
    var tracks: seq<Track> := [];
    var lba: uint32 := FIRST_TRACK_PREGAP;
    var totalPadding: uint32 := 0;
    var i := 0;
    while i < |infos|
      invariant 0 <= i <= |infos| && |tracks| == i
      invariant lba == FIRST_TRACK_PREGAP + SumFrames(infos[..i]) && totalPadding == SumPadding(infos[..i])
      invariant forall k :: 0 <= k < i ==> Entry(tracks[k], infos, k)
      invariant forall k :: 0 <= k < i ==> TrackTypeOf(infos[k].trackType).Some?
    {
      var info := infos[i];
      var kind := TrackTypeOf(info.trackType);
      if kind.None? {
        forall k: nat | FirstUnsupported(infos, k)
          ensures k == i
        {
        }
        return Err(UnsupportedSectorFormat(info.trackType));
      }
      StepFits(infos, i);
      var startLba := lba;
      lba := lba + info.frames;
      var paddingOffset := totalPadding;
      var alignRemainder := info.frames % 4;
      if alignRemainder > 0 {
        totalPadding := totalPadding + (4 - alignRemainder);
      }
      assert totalPadding == paddingOffset + Padding(info.frames);
      var track := Track(startLba, kind.value, paddingOffset, info);
      assert Entry(track, infos, i);
      AppendEntry(tracks, infos, track);
      tracks := tracks + [track];
      i := i + 1;
    }
    r := Ok(tracks);
  }

  /** `from_chd`, given the header's hunk count and hunk size, the hunks the
      CHD library produces, the CD track records of its metadata, and the
      bytes of the SBI file beside it if there is one. The CHD library
      refuses a zero hunk size. */
  method FromChd(numHunks: uint32, hunkLen: uint32, hunks: map<uint32, seq<uint8>>, infos: seq<TrackInfo>, sbi: Option<seq<uint8>>)
    returns (r: Result<ChdImage, ChdImageError>)
    requires hunkLen > 0
    requires forall n :: n in hunks ==> n < numHunks && |hunks[n]| == hunkLen
    requires Fits(infos)
    ensures hunkLen % BYTES_PER_SECTOR != 0 ==> r == Err(WrongHunkSize)
    ensures hunkLen % BYTES_PER_SECTOR == 0 && 0 !in hunks ==> r == Err(ChdError)
    ensures hunkLen % BYTES_PER_SECTOR == 0 && 0 in hunks && infos == [] ==> r == Err(NoTracks)
    ensures forall k: nat :: hunkLen % BYTES_PER_SECTOR == 0 && 0 in hunks && FirstUnsupported(infos, k) ==>
                          r == Err(UnsupportedSectorFormat(infos[k].trackType))
    ensures r.Ok? <==> hunkLen % BYTES_PER_SECTOR == 0 && 0 in hunks && infos != []
                       && forall k :: 0 <= k < |infos| ==> TrackTypeOf(infos[k].trackType).Some?
    ensures r.Ok? ==> && fresh(r.value) && r.value.Valid() && IsTable(r.value.tracks, infos)
                      && r.value.numHunks == numHunks && r.value.hunkLen == hunkLen
                      && r.value.sectorsPerHunk == hunkLen / BYTES_PER_SECTOR && r.value.hunks == hunks
                      && r.value.currentLba == FIRST_TRACK_PREGAP && r.value.currentTrack == 0
                      && r.value.currentHunkNo == Some(0) && r.value.hunk == hunks[0]
                      && r.value.invalidSubqLbas == Sbi.SbiLbas(sbi)
  {
    if hunkLen % BYTES_PER_SECTOR != 0 {
      return Err(WrongHunkSize);
    }
    if 0 !in hunks {
      return Err(ChdError);
    }
    if infos == [] {
      return Err(NoTracks);
    }
    var tracks := LayTracks(infos);
    if tracks.Err? {
      return Err(tracks.error);
    }
    TableLaid(tracks.value, infos);
    var lbas: Option<set<nat>> := None;
    if sbi.Some? {
      var loaded := Sbi.LoadSbi(sbi.value);
      if loaded.Ok? {
        lbas := Some(loaded.value);
      }
    }
    var image := new ChdImage(tracks.value, numHunks, hunkLen, hunks, lbas);
    r := Ok(image);
  }
}
