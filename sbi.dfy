/** The SBI subchannel-error file (src/sbi.rs): the magic "SBI\0", then
    records of a 3-byte BCD address, a mode byte and a payload whose length
    the mode fixes. The loader collects the LBAs of the records' addresses:
    the sectors whose subchannel Q data is known to be bad. */
module Sbi {
  import opened Wrappers
  import opened Index

  datatype SbiParseError = MsfError(inner: MsfParseError) | InvalidMode | NotAnSbiFile

  const MAGIC: seq<uint8> := [0x53, 0x42, 0x49, 0x00]   // "SBI\0"
  const HEADER_LEN: nat := 4

  predicate HasMagic(data: seq<uint8>) {
    |data| >= HEADER_LEN && data[..HEADER_LEN] == MAGIC
  }

  /** A record header starts at `o`: its address and mode byte are there. */
  predicate InData(data: seq<uint8>, o: nat) {
    o + 3 < |data|
  }

  /** The address of the record at `o`, BCD-decoded. */
  function RecordMsf(data: seq<uint8>, o: nat): Result<MsfIndex, MsfParseError>
    requires InData(data, o)
  {
    FromBcdValues(data[o], data[o + 1], data[o + 2])
  }

  /** The record at `o` decodes and has a known mode. */
  predicate RecordOk(data: seq<uint8>, o: nat)
    requires InData(data, o)
  {
    RecordMsf(data, o).Ok? && data[o + 3] <= 3
  }

  /** Header (4) plus payload: 10 bytes for mode 1, 3 for modes 0, 2 and 3. */
  function RecordLen(mode: uint8): nat
    requires mode <= 3
  {
    if mode == 1 then 14 else 7
  }

  /** The offsets of the record headers the cursor visits from `i`: it stops
      at the end of the data or after a record with an unknown mode. */
  function Offsets(data: seq<uint8>, i: nat): (r: seq<nat>)
    ensures forall k :: 0 <= k < |r| ==> i <= r[k] && InData(data, r[k])
    ensures forall k :: 0 < k < |r| ==> r[k - 1] < r[k]
    ensures r != [] ==> r[0] == i
    decreases |data| - i
  {
    if !InData(data, i) then []
    else if data[i + 3] > 3 then [i]
    else [i] + Offsets(data, i + RecordLen(data[i + 3]))
  }

  /** The lowest-numbered visited record that fails, if any. */
  predicate FirstBad(data: seq<uint8>, offs: seq<nat>, k: nat)
    requires forall j :: 0 <= j < |offs| ==> InData(data, offs[j])
  {
    k < |offs| && !RecordOk(data, offs[k])
    && forall j :: 0 <= j < k ==> RecordOk(data, offs[j])
  }

  /** Every offset in `offs` holds a good record. */
  predicate AllOk(data: seq<uint8>, offs: seq<nat>) {
    forall o <- offs :: InData(data, o) && RecordOk(data, o)
  }

  /** What parsing the records from offset `i` yields: the LBAs of their
      addresses, or the error of the first record that fails. */
  function ParseFrom(data: seq<uint8>, i: nat): (r: Result<set<nat>, SbiParseError>)
    ensures !InData(data, i) ==> r == Ok({})
    ensures r.Err? ==> r.error != NotAnSbiFile
    decreases |data| - i
  {
    if !InData(data, i) then Ok({})
    else
      var msf := RecordMsf(data, i);
      if msf.Err? then Err(MsfError(msf.error))
      else if data[i + 3] > 3 then Err(InvalidMode)
      else Prepend({ToLba(msf.value)}, ParseFrom(data, i + RecordLen(data[i + 3])))
  }

  /** Adds earlier LBAs to a successful result; an error stays as it is. */
  function Prepend(lbas: set<nat>, r: Result<set<nat>, SbiParseError>): (p: Result<set<nat>, SbiParseError>)
    ensures p.Ok? <==> r.Ok?
    ensures p.Ok? ==> p.value == lbas + r.value
    ensures p.Err? ==> p == r
  {
    if r.Ok? then Ok(lbas + r.value) else r
  }

  /** Every sector a parse collects is an address on the disc, below 100 minutes. */
  lemma {:induction false} ParseFromOnDisc(data: seq<uint8>, i: nat)
    ensures ParseFrom(data, i).Ok? ==> forall lba :: lba in ParseFrom(data, i).value ==> lba < MAX_LBA
    decreases |data| - i
  {
    if InData(data, i) && RecordOk(data, i) {
      ParseFromOnDisc(data, i + RecordLen(data[i + 3]));
    }
  }

  /** The result of `load_sbi_file` for the whole data. */
  function SbiResult(data: seq<uint8>): (r: Result<set<nat>, SbiParseError>)
    ensures r == Err(NotAnSbiFile) <==> !HasMagic(data)
  {
    if HasMagic(data) then ParseFrom(data, HEADER_LEN) else Err(NotAnSbiFile)
  }

  /** `load_sbi_file` after the file is read: the loop over the records. */
  method LoadSbi(data: seq<uint8>) returns (r: Result<set<nat>, SbiParseError>)
    ensures r == SbiResult(data)
  {
    if |data| < HEADER_LEN || data[..HEADER_LEN] != MAGIC {
      return Err(NotAnSbiFile);
    }

    var lbas: set<nat> := {};
    var index: nat := HEADER_LEN;
    ghost var rest := ParseFrom(data, index);
    assert rest.Ok? ==> {} + rest.value == rest.value;
    while index + 3 < |data|
      invariant ParseFrom(data, HEADER_LEN) == Prepend(lbas, ParseFrom(data, index))
      decreases |data| - index
    {
      var msf := FromBcdValues(data[index], data[index + 1], data[index + 2]);
      if msf.Err? {
        return Err(MsfError(msf.error));
      }
      var lba := ToLba(msf.value);
      ghost var before := lbas;
      lbas := lbas + {lba};

      var mode := data[index + 3];
      if mode == 1 {
        ParseStep(data, index);
        PrependTwice(before, {lba}, ParseFrom(data, index + RecordLen(mode)));
        index := index + 4 + 10;
      } else if mode <= 3 {
        ParseStep(data, index);
        PrependTwice(before, {lba}, ParseFrom(data, index + RecordLen(mode)));
        index := index + 4 + 3;
      } else {
        return Err(InvalidMode);
      }
    }
    r := Ok(lbas);
  }

  /** The LBAs of the records at the given offsets. */
  function LbasAt(data: seq<uint8>, offs: seq<nat>): set<nat>
    requires AllOk(data, offs)
  {
    set o <- offs :: ToLba(RecordMsf(data, o).value)
  }

  /** Parsing from `i` succeeds exactly when every record the cursor visits
      is good, and then yields the set of their LBAs. */
  lemma {:induction false} ParseFromOk(data: seq<uint8>, i: nat)
    ensures ParseFrom(data, i).Ok? <==> AllOk(data, Offsets(data, i))
    ensures ParseFrom(data, i).Ok? ==> ParseFrom(data, i).value == LbasAt(data, Offsets(data, i))
    decreases |data| - i
  {
    if InData(data, i) && data[i + 3] <= 3 {
      var j := i + RecordLen(data[i + 3]);
      ParseFromOk(data, j);
      var rest := Offsets(data, j);
      assert Offsets(data, i) == [i] + rest;
      if RecordMsf(data, i).Ok? {
        AllOkCons(data, i, rest);
        if ParseFrom(data, j).Ok? {
          LbasCons(data, i, rest);
        }
      } else {
        assert !AllOk(data, [i] + rest) by { assert ([i] + rest)[0] == i; }
      }
    }
  }

  lemma AllOkCons(data: seq<uint8>, i: nat, rest: seq<nat>)
    requires InData(data, i) && RecordOk(data, i)
    ensures AllOk(data, [i] + rest) <==> AllOk(data, rest)
  {
    assert forall o :: o in [i] + rest <==> o == i || o in rest;
  }

  lemma LbasCons(data: seq<uint8>, i: nat, rest: seq<nat>)
    requires InData(data, i) && RecordOk(data, i) && AllOk(data, rest)
    ensures AllOk(data, [i] + rest)
    ensures LbasAt(data, [i] + rest) == {ToLba(RecordMsf(data, i).value)} + LbasAt(data, rest)
  {
    AllOkCons(data, i, rest);
    assert forall o :: o in [i] + rest <==> o == i || o in rest;
  }

  /** `e` is the error of the record at `offs[k]`, the first bad one: its
      address error if the address does not decode, else InvalidMode. */
  predicate ErrorAt(data: seq<uint8>, offs: seq<nat>, k: nat, e: SbiParseError)
    requires forall j :: 0 <= j < |offs| ==> InData(data, offs[j])
  {
    FirstBad(data, offs, k) &&
    if RecordMsf(data, offs[k]).Err? then e == MsfError(RecordMsf(data, offs[k]).error)
    else e == InvalidMode
  }

  /** When parsing from `i` fails, the error is that of the first bad record. */
  lemma {:induction false} ParseFromErr(data: seq<uint8>, i: nat)
    requires ParseFrom(data, i).Err?
    ensures exists k: nat :: ErrorAt(data, Offsets(data, i), k, ParseFrom(data, i).error)
    decreases |data| - i
  {
    var offs := Offsets(data, i);
    assert InData(data, i) && offs[0] == i;
    if !RecordOk(data, i) {
      assert ErrorAt(data, offs, 0, ParseFrom(data, i).error);
    } else {
      var j := i + RecordLen(data[i + 3]);
      ParseFromErr(data, j);
      var rest := Offsets(data, j);
      assert offs == [i] + rest;
      var k: nat :| ErrorAt(data, rest, k, ParseFrom(data, j).error);
      assert offs[k + 1] == rest[k];
      assert forall m :: 1 <= m <= k ==> offs[m] == rest[m - 1];
      assert ErrorAt(data, offs, k + 1, ParseFrom(data, i).error);
    }
  }

  /** One good record: the cursor's result is its LBA added to the rest. */
  lemma ParseStep(data: seq<uint8>, i: nat)
    requires InData(data, i) && RecordOk(data, i)
    ensures ParseFrom(data, i)
      == Prepend({ToLba(RecordMsf(data, i).value)}, ParseFrom(data, i + RecordLen(data[i + 3])))
  {
  }

  lemma PrependTwice(a: set<nat>, b: set<nat>, r: Result<set<nat>, SbiParseError>)
    ensures Prepend(a, Prepend(b, r)) == Prepend(a + b, r)
  {
    if r.Ok? {
      assert a + (b + r.value) == (a + b) + r.value;
    }
  }

  /** What the loader returns, in terms of the records the cursor visits:
      without the magic, NotAnSbiFile; otherwise success exactly when every
      visited record is good, with the set of their LBAs, or else the error of
      the first bad record. */
  lemma SbiResultSpec(data: seq<uint8>)
    ensures !HasMagic(data) ==> SbiResult(data) == Err(NotAnSbiFile)
    ensures HasMagic(data) ==> (SbiResult(data).Ok? <==> AllOk(data, Offsets(data, HEADER_LEN)))
    ensures SbiResult(data).Ok? ==> SbiResult(data).value == LbasAt(data, Offsets(data, HEADER_LEN))
    ensures HasMagic(data) && SbiResult(data).Err? ==>
      exists k: nat :: ErrorAt(data, Offsets(data, HEADER_LEN), k, SbiResult(data).error)
  {
    if HasMagic(data) {
      ParseFromOk(data, HEADER_LEN);
      if SbiResult(data).Err? {
        ParseFromErr(data, HEADER_LEN);
      }
    }
  }

  /** The cursor strictly increases, so records never overlap or repeat. */
  lemma {:induction false} OffsetsIncreasing(data: seq<uint8>, i: nat, j: nat, k: nat)
    requires j < k < |Offsets(data, i)|
    ensures Offsets(data, i)[j] < Offsets(data, i)[k]
    decreases k - j
  {
    var offs := Offsets(data, i);
    if j + 1 < k {
      OffsetsIncreasing(data, i, j, k - 1);
    }
    assert offs[k - 1] < offs[k];
  }

  /** The magic and one mode-1 record at 00:00:02 with none of its 10
      payload bytes. */
  const TRUNCATED: seq<uint8> := MAGIC + [0x00, 0x00, 0x02, 0x01]

  lemma TruncatedOffsets()
    ensures Offsets(TRUNCATED, HEADER_LEN) == [HEADER_LEN]
  {
    assert TRUNCATED[7] == 1;
    assert Offsets(TRUNCATED, 18) == [];
  }

  /** Three single-digit bytes decode to themselves. */
  lemma DigitsDecode(mb: uint8, sb: uint8, fb: uint8)
    requires mb <= 9 && sb <= 9 && fb <= 9
    ensures FromBcdValues(mb, sb, fb) == Ok(MsfIndex(mb, sb, fb))
  {
    SingleDigit(mb);
    SingleDigit(sb);
    SingleDigit(fb);
  }

  lemma SingleDigit(b: uint8)
    requires b <= 9
    ensures IsBcd(b) && FromBcd(b) == b
  {
    assert HighNibble(b) == 0 && LowNibble(b) == b;
  }

  lemma TruncatedRecord()
    ensures InData(TRUNCATED, HEADER_LEN)
    ensures RecordMsf(TRUNCATED, HEADER_LEN) == Ok(MsfIndex(0, 0, 2))
  {
    assert TRUNCATED[4] == 0 && TRUNCATED[5] == 0 && TRUNCATED[6] == 2;
    DigitsDecode(TRUNCATED[4], TRUNCATED[5], TRUNCATED[6]);
  }

  /** A final record whose payload runs past the end of the data still counts. */
  lemma TruncatedRecordAccepted()
    ensures Offsets(TRUNCATED, HEADER_LEN) == [HEADER_LEN]
    ensures RecordOk(TRUNCATED, HEADER_LEN) && ToLba(RecordMsf(TRUNCATED, HEADER_LEN).value) == 2
  {
    TruncatedOffsets();
    TruncatedRecord();
    assert TRUNCATED[7] == 1;
  }

  /** The same data, through the loader. */
  method TruncatedRecordExample() returns (r: Result<set<nat>, SbiParseError>)
    ensures r == Ok({2})
  {
    TruncatedRecordAccepted();
    ParseFromOk(TRUNCATED, HEADER_LEN);
    assert TRUNCATED[..HEADER_LEN] == MAGIC;
    r := LoadSbi(TRUNCATED);
    assert LbasAt(TRUNCATED, [HEADER_LEN]) == {2};
  }

  /** The set of sectors with a bad subchannel Q that an image keeps
      (`_open` in src/cue.rs, `from_chd` in src/chd.rs): the SBI file's, when
      there is one and it loads; a file that fails to load is passed over. */
  function SbiLbas(sbi: Option<seq<uint8>>): (r: Option<set<nat>>)
    ensures r.Some? <==> sbi.Some? && SbiResult(sbi.value).Ok?
    ensures r.Some? ==> r.value == SbiResult(sbi.value).value
  {
    match sbi
    case None => None
    case Some(data) => if SbiResult(data).Ok? then Some(SbiResult(data).value) else None
  }
}
