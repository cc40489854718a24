/** Types shared by the image back ends: track types, cursor events, errors,
    and the track-relative MSF that all three back ends report. The crate root
    that src/cue.rs and src/chd.rs import these from is not part of this model;
    the types here are the ones those files use, and TrackType is the one
    src/lib.rs defines. */
module Disc {
  import opened Wrappers
  import opened Index

  /** Sectors before the first track's INDEX 01 that no image file holds (two seconds). */
  const FIRST_TRACK_PREGAP: nat := 150

  /** Bytes in one raw CD sector. */
  const SECTOR_BYTES: nat := 2352

  datatype TrackType = Audio | Mode1 | Mode2

  /** What moving the cursor one sector on did. */
  datatype Event = TrackChange | EndOfDisc

  datatype ChdImageError =
    | ChdError          // a failure inside the CHD library (reading a hunk, a header)
    | WrongHunkSize
    | WrongBufferSize
    | UnsupportedSectorFormat(name: string)
    | NoTracks
    | RecursionDepthExceeded
    | UnsupportedChdVersion
    | ParentNotFound

  datatype ImageError =
    | OutOfRange
    | MsfError(inner: MsfParseError)
    | IoError
    | Chd(chd: ChdImageError)

  /** Lifts an MSF conversion into the image error type (the `?` on `from_lba`). */
  function LiftMsf(r: Result<MsfIndex, MsfParseError>): (o: Result<MsfIndex, ImageError>)
    ensures o.Ok? <==> r.Ok?
    ensures o.Ok? ==> o.value == r.value
    ensures o.Err? ==> o.error == MsfError(r.error)
  {
    match r
    case Ok(x) => Ok(x)
    case Err(e) => Err(MsfError(e))
  }

  /** `MsfIndex::from_lba(n)?` in an image: the address of sector n, whose
      minutes the conversion keeps in a byte. */
  function AddressOf(n: uint32): (r: Result<MsfIndex, ImageError>)
    ensures r.Ok? <==> n % LBA_WRAP < MAX_LBA
    ensures r.Ok? ==> r.value.Valid() && ToLba(r.value) == n % LBA_WRAP
    ensures n < MAX_LBA ==> r.Ok? && ToLba(r.value) == n
    ensures r.Err? ==> r.error == MsfError(OutOfRangeError)
  {
    LiftMsf(FromLba(n))
  }

  /** The address of `pos` relative to `origin` (both `u32`): `origin` itself
      is 00:00:00, later sectors count up, and earlier ones count down from
      100:00:00, so 1 sector before is 99:59:74. */
  function RelativeMsf(pos: nat, origin: nat): (r: Result<MsfIndex, ImageError>)
    requires pos < U32_MODULUS && origin < U32_MODULUS
    requires origin - pos <= MAX_LBA
    ensures pos >= origin ==> (r.Ok? <==> (pos - origin) % LBA_WRAP < MAX_LBA)
    ensures pos >= origin && r.Ok? ==> ToLba(r.value) == (pos - origin) % LBA_WRAP
    ensures pos >= origin && pos - origin < MAX_LBA ==> r.Ok? && ToLba(r.value) == pos - origin
    ensures pos < origin ==> r.Ok? && ToLba(r.value) == MAX_LBA - (origin - pos)
    ensures r.Ok? ==> r.value.Valid()
  {
    if pos < origin then
      // Negative MSFs are (100,0,0) - x
      var d := MAX_LBA - (origin - pos);
      assert d % LBA_WRAP == d;
      LiftMsf(FromLba(d))
    else
      var d := pos - origin;
      assert d < MAX_LBA ==> d % LBA_WRAP == d;
      LiftMsf(FromLba(d))
  }

  /** Relative addresses before the origin are ordered like the sectors. */
  lemma RelativeMsfBeforeOrigin(p: nat, q: nat, origin: nat)
    requires p < q < origin < U32_MODULUS
    requires origin - p <= MAX_LBA
    ensures Cmp(RelativeMsf(p, origin).value, RelativeMsf(q, origin).value) == Less
  {
  }

  /** One sector before the origin is 99:59:74. */
  lemma RelativeMsfJustBefore(origin: nat)
    requires 1 <= origin < U32_MODULUS
    ensures RelativeMsf(origin - 1, origin) == Ok(MsfIndex(99, 59, 74))
  {
    var r := RelativeMsf(origin - 1, origin);
    ToLbaInjective(r.value, MsfIndex(99, 59, 74));
  }
}
