/** The older MSF type (src/msf_index.rs). Its constructor, BCD functions,
    text parser, `to_sectors` and ordering are the same as in src/index.rs
    and are the ones in module Index; this module adds what only the older
    file has: byte offsets, `from_sectors`, and addition and subtraction with
    carries and borrows. */
module LegacyMsf {
  import opened Wrappers
  import opened Index
  import opened Disc

  datatype MsfOperation = AddOp | SubOp

  /** `MsfOverflow(op, lhs, rhs)`: the operation and both operands. */
  datatype MsfOverflow = MsfOverflow(op: MsfOperation, lhs: MsfIndex, rhs: MsfIndex)

  /** `to_offset`: the byte offset of the sector in a raw image. */
  function ToOffset(x: MsfIndex): (r: nat)
    ensures r % SECTOR_BYTES == 0 && r / SECTOR_BYTES == ToLba(x)
  {
    ToLba(x) * SECTOR_BYTES
  }

  /** The sectors of two addresses in order do not overlap in the image. */
  lemma OffsetsDisjoint(x: MsfIndex, y: MsfIndex)
    requires Cmp(x, y) == Less
    ensures ToOffset(x) + SECTOR_BYTES <= ToOffset(y)
  {
    assert ToOffset(y) - ToOffset(x) == (ToLba(y) - ToLba(x)) * SECTOR_BYTES;
  }

  /** `from_sectors`, as written: the seconds are the remainder divided by 60,
      not by 75, and the frames what is left after that. */
  function FromSectors(n: nat): (r: Result<MsfIndex, MsfParseError>)
    ensures r.Ok? <==> (n / FRAMES_PER_MINUTE) % 256 <= 99 && n % FRAMES_PER_MINUTE < 3600
    ensures r.Ok? ==> r.value.Valid() && r.value.f < 60
    ensures r.Ok? ==> r.value == MsfIndex((n / FRAMES_PER_MINUTE) % 256, (n % FRAMES_PER_MINUTE) / 60, (n % FRAMES_PER_MINUTE) % 60)
    ensures r.Ok? ==> ToLba(r.value) == FRAMES_PER_MINUTE * ((n / FRAMES_PER_MINUTE) % 256) + n % FRAMES_PER_MINUTE + 15 * ((n % FRAMES_PER_MINUTE) / 60)
    ensures r.Err? ==> r.error == OutOfRangeError
  {
    var m := n / FRAMES_PER_MINUTE;
    var rest := n - m * FRAMES_PER_MINUTE;
    var s := rest / 60;
    var f := rest - s * 60;
    SplitSixty(n, m, rest, s, f);
    New(m % 256, s % 256, f % 256)
  }

  /** The pieces `from_sectors` cuts a sector number into. */
  lemma SplitSixty(n: nat, m: nat, rest: int, s: int, f: int)
    requires m == n / FRAMES_PER_MINUTE && rest == n - m * FRAMES_PER_MINUTE
    requires s == rest / 60 && f == rest - s * 60
    ensures rest == n % FRAMES_PER_MINUTE
    ensures 0 <= s < 75 && s % 256 == s && 0 <= f < 60 && f % 256 == f
    ensures s < 60 <==> rest < 3600
  {
  }

  /** Sector 74 (the last frame of the first second) comes out as 00:01:14,
      which is sector 89. */
  lemma FromSectorsIsNotInverse()
    ensures FromSectors(74) == Ok(MsfIndex(0, 1, 14))
    ensures ToLba(FromSectors(74).value) == 89
  {
  }

  /** `from_sectors` rejects in-range sector numbers such as 3600 (00:48:00). */
  lemma FromSectorsRejectsValid()
    ensures FromSectors(3600).Err?
    ensures FromLba(3600) == Ok(MsfIndex(0, 48, 0))
  {
    var r := FromLba(3600);
    ToLbaInjective(r.value, MsfIndex(0, 48, 0));
  }

  /** `impl Add`: adds field by field, carries frames into seconds and seconds
      into minutes, and fails with the operands when the minutes pass 99. */
  method Add(a: MsfIndex, b: MsfIndex) returns (r: Result<MsfIndex, MsfOverflow>)
    requires a.Valid() && b.Valid()
    ensures r.Ok? <==> ToLba(a) + ToLba(b) < MAX_LBA
    ensures r.Ok? ==> r.value.Valid() && ToLba(r.value) == ToLba(a) + ToLba(b)
    ensures r.Err? ==> r.error == MsfOverflow(AddOp, a, b)
  {
    var m, s, f := a.m + b.m, a.s + b.s, a.f + b.f;
    ghost var sum := ToLba(a) + ToLba(b);

    // 75 frames -> 1 second
    while f >= 75
      invariant 0 <= f && m * 4500 + s * 75 + f == sum
      invariant m == a.m + b.m && 75 * (s - a.s - b.s) + f == a.f + b.f
      decreases f
    {
      f := f - 75;
      s := s + 1;
    }

    // 60 seconds -> 1 minute
    while s >= 60
      invariant 0 <= s && f < 75 && m * 4500 + s * 75 + f == sum
      invariant 0 <= s <= 119 && 60 * (m - a.m - b.m) + s <= 119
      decreases s
    {
      s := s - 60;
      m := m + 1;
    }

    assert m <= 199;
    var n := New(m, s, f);
    if n.Ok? {
      r := Ok(n.value);
    } else {
      assert m > 99;
      assert sum >= 100 * 4500;
      r := Err(MsfOverflow(AddOp, a, b));
    }
  }

  /** `next`: the address one frame later. */
  method Next(x: MsfIndex) returns (r: Result<MsfIndex, MsfOverflow>)
    requires x.Valid()
    ensures r.Ok? <==> ToLba(x) + 1 < MAX_LBA
    ensures r.Ok? ==> r.value.Valid() && ToLba(r.value) == ToLba(x) + 1
    ensures r.Err? ==> r.error == MsfOverflow(AddOp, x, MsfIndex(0, 0, 1))
  {
    r := Add(x, MsfIndex(0, 0, 1));
  }

  /** `impl Sub`: fails with the operands when the right operand is the later
      address; otherwise subtracts field by field with one borrow each from
      the seconds and the minutes. The minutes never go negative, so the
      `assert!` on them cannot fail. */
  method Sub(a: MsfIndex, b: MsfIndex) returns (r: Result<MsfIndex, MsfOverflow>)
    requires a.Valid() && b.Valid()
    ensures r.Ok? <==> ToLba(b) <= ToLba(a)
    ensures r.Ok? ==> r.value.Valid() && ToLba(r.value) == ToLba(a) - ToLba(b)
    ensures r.Err? ==> r.error == MsfOverflow(SubOp, a, b)
  {
    if Cmp(b, a) == Greater {
      return Err(MsfOverflow(SubOp, a, b));
    }

    var m, s, f := a.m - b.m, a.s - b.s, a.f - b.f;
    if f < 0 {
      s := s - 1;
      f := f + 75;
    }
    if s < 0 {
      m := m - 1;
      s := s + 60;
    }
    assert m * 4500 + s * 75 + f == ToLba(a) - ToLba(b);

    // The `assert!(tmp.0 >= 0)` of the source.
    assert m >= 0;

    var n := New(m, s, f);
    if n.Ok? {
      r := Ok(n.value);
    } else {
      r := Err(MsfOverflow(SubOp, a, b));
    }
  }

  /** Adding and then subtracting the same address gives the first one back. */
  method AddSubRoundTrip(a: MsfIndex, b: MsfIndex) returns (sum: Result<MsfIndex, MsfOverflow>, back: Result<MsfIndex, MsfOverflow>)
    requires a.Valid() && b.Valid() && ToLba(a) + ToLba(b) < MAX_LBA
    ensures sum.Ok? && back == Ok(a)
  {
    sum := Add(a, b);
    back := Sub(sum.value, b);
    ToLbaInjective(back.value, a);
  }

  /** The additions of the source's unit tests: 0 + 1 frame, 13:37:42 + 1
      frame, and the carries of `next` into the seconds, into the minutes,
      and past 99:59:74. */
  method AddExamples() returns (a: Result<MsfIndex, MsfOverflow>, b: Result<MsfIndex, MsfOverflow>,
                                c: Result<MsfIndex, MsfOverflow>, d: Result<MsfIndex, MsfOverflow>,
                                e: Result<MsfIndex, MsfOverflow>)
    ensures a == Ok(MsfIndex(0, 0, 1)) && b == Ok(MsfIndex(13, 37, 43))
    ensures c == Ok(MsfIndex(0, 1, 0)) && d == Ok(MsfIndex(1, 0, 0))
    ensures e == Err(MsfOverflow(AddOp, MsfIndex(99, 59, 74), MsfIndex(0, 0, 1)))
  {
    var zero, one := MsfIndex(0, 0, 0), MsfIndex(0, 0, 1);
    a := Add(zero, one);
    ToLbaInjective(a.value, one);

    b := Add(MsfIndex(13, 37, 42), one);
    ToLbaInjective(b.value, MsfIndex(13, 37, 43));

    c := Next(MsfIndex(0, 0, 74));
    ToLbaInjective(c.value, MsfIndex(0, 1, 0));

    d := Next(MsfIndex(0, 59, 74));
    ToLbaInjective(d.value, MsfIndex(1, 0, 0));

    e := Next(MsfIndex(99, 59, 74));
  }
}
