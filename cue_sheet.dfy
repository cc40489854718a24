/** The cue sheet data and line parsers that src/cue.rs and src/lib.rs share
    line for line: bin files and their tracks, the FILE, TRACK and INDEX line
    parsers, and the text those lines are read from. A bin file is known by
    its name and byte length. */
module CueSheet {
  import opened Wrappers
  import opened Strings
  import opened Index
  import opened Disc

  datatype BinMode = Binary | Wave | Mp3 | Aiff | Motorola

  /** `CueError` (and the older `CueParseError`). `MissingIndexPanic` is not an
      error of the source: it stands for the panic of `first_index_lba` when a
      bin file's only track has neither INDEX 00 nor INDEX 01. */
  datatype CueError =
    | MsfParseError(inner: MsfParseError)
    | ParseIntError
    | IoError
    | InvalidCommandError(command: string)
    | InvalidTrackLine
    | InvalidTrackNumber
    | NoTracks
    | TrackWithoutIndex01
    | UnknownTrackType(name: string)
    | UnknownBinMode(name: string)
    | InvalidIndexLine
    | InvalidIndexNumber
    | NoBinFiles
    | FileNameParseError
    | TrackCommandWithoutBinFile
    | IndexCommandWithoutTrack
    | OutOfRange        // only the cursor of src/lib.rs returns these two
    | NoLocationSet
    | MissingIndexPanic

  /** A track; `startingLba` and `indices` are sectors from the start of its
      bin file, `indices` maps an INDEX number to its sector. */
  datatype Track = Track(trackType: TrackType, startingLba: uint32, numSectors: uint32, indices: map<uint8, uint32>)

  datatype BinFile = BinFile(name: string, byteLen: nat, binMode: BinMode, tracks: seq<Track>)

  /** `BinFile::num_sectors`: the byte length cast to `u32`, then divided by 2352. */
  function NumSectors(b: BinFile): (r: nat)
    ensures r < U32_MODULUS && r * SECTOR_BYTES <= b.byteLen
  {
    (b.byteLen % U32_MODULUS) / SECTOR_BYTES
  }

  // ---------------------------------------------------------------------
  // Words of a line

  /** `BinMode::try_from_str`. */
  function BinModeFromStr(s: string): (r: Result<BinMode, CueError>)
    ensures r.Err? ==> r.error == UnknownBinMode(ToUppercase(Trim(s)))
    ensures r.Ok? <==> ToUppercase(Trim(s)) in {"BINARY", "WAVE", "MP3", "AIFF", "MOTOROLA"}
  {
    var u := ToUppercase(Trim(s));
    if u == "BINARY" then Ok(Binary)
    else if u == "WAVE" then Ok(Wave)
    else if u == "MP3" then Ok(Mp3)
    else if u == "AIFF" then Ok(Aiff)
    else if u == "MOTOROLA" then Ok(Motorola)
    else Err(UnknownBinMode(u))
  }

  /** `TrackType::try_from_str`: MODE2 and MODE2/2352 are both Mode2. */
  function TrackTypeFromStr(s: string): (r: Result<TrackType, CueError>)
    ensures r.Err? ==> r.error == UnknownTrackType(ToUppercase(Trim(s)))
    ensures r.Ok? <==> ToUppercase(Trim(s)) in {"AUDIO", "MODE1", "MODE2", "MODE2/2352"}
    ensures r == Ok(Mode2) <==> ToUppercase(Trim(s)) in {"MODE2", "MODE2/2352"}
  {
    var u := ToUppercase(Trim(s));
    if u == "AUDIO" then Ok(Audio)
    else if u == "MODE1" then Ok(Mode1)
    else if u == "MODE2" || u == "MODE2/2352" then Ok(Mode2)
    else Err(UnknownTrackType(u))
  }

  /** The keyword a cue sheet writes for each bin mode and track type. */
  function BinModeName(m: BinMode): string {
    match m
    case Binary => "BINARY"
    case Wave => "WAVE"
    case Mp3 => "MP3"
    case Aiff => "AIFF"
    case Motorola => "MOTOROLA"
  }

  function TrackTypeName(t: TrackType): string {
    match t
    case Audio => "AUDIO"
    case Mode1 => "MODE1"
    case Mode2 => "MODE2"
  }

  lemma TrimAll(s: string)
    requires s != [] && !IsWhitespace(s[0]) && !IsWhitespace(s[|s| - 1])
    ensures Trim(s) == s
  {
  }

  lemma TrimIdempotent(s: string)
    ensures Trim(Trim(s)) == Trim(s)
  {
    var t := Trim(s);
    if t != [] {
      TrimAll(t);
    }
  }

  /** A keyword in upper case is its own trimmed, upper-cased form. */
  lemma Keyword(k: string)
    requires k != [] && UpperAscii(k)
    ensures ToUppercase(Trim(k)) == k
  {
    TrimAll(k);
    UppercaseIdempotentOnUpper(k);
  }

  /** Every keyword is read back as itself. */
  lemma BinModeNameRoundTrip(m: BinMode)
    ensures BinModeFromStr(BinModeName(m)) == Ok(m)
  {
    Keyword(BinModeName(m));
    BinModeOfKeyword(BinModeName(m), m);
  }

  /** Any text that trims and upper-cases to a mode's keyword is that mode. */
  lemma BinModeOfKeyword(s: string, m: BinMode)
    requires ToUppercase(Trim(s)) == BinModeName(m)
    ensures BinModeFromStr(s) == Ok(m)
  {
  }

  lemma TrackTypeNameRoundTrip(t: TrackType)
    ensures TrackTypeFromStr(TrackTypeName(t)) == Ok(t)
  {
    Keyword(TrackTypeName(t));
  }

  /** The parsers ignore case and surrounding whitespace. */
  lemma TrackTypeIgnoresCase(s: string)
    ensures TrackTypeFromStr(ToUppercase(s)) == TrackTypeFromStr(s)
    ensures TrackTypeFromStr(Trim(s)) == TrackTypeFromStr(s)
  {
    UppercaseTrim(s);
    UppercaseIdempotent(Trim(s));
    TrimIdempotent(s);
  }

  lemma BinModeIgnoresCase(s: string)
    ensures BinModeFromStr(ToUppercase(s)) == BinModeFromStr(s)
    ensures BinModeFromStr(Trim(s)) == BinModeFromStr(s)
  {
    UppercaseTrim(s);
    UppercaseIdempotent(Trim(s));
    TrimIdempotent(s);
  }

  /** MODE2/2352, the raw-sector spelling, is a second name for Mode2. */
  lemma Mode2RawKeyword()
    ensures TrackTypeFromStr("MODE2/2352") == Ok(Mode2)
  {
    Keyword("MODE2/2352");
  }

  // ---------------------------------------------------------------------
  // Line parsers

  /** A track as `parse_track_line` creates it: at sector 0, no length, no indices. */
  function NewTrack(t: TrackType): Track {
    Track(t, 0, 0, map[])
  }

  /** `parse_track_line`: "TRACK <number> <type>"; the line is trimmed and
      split at whitespace, and its words are read by TrackWords. */
  function ParseTrackLine(line: string): (r: Result<(Track, uint8), CueError>)
    ensures var w := Words(Trim(line));
            r.Ok? <==> |w| >= 3 && ParseU8(w[1]).Some? && TrackTypeFromStr(w[2]).Ok?
    ensures r.Ok? ==> r.value.0 == NewTrack(r.value.0.trackType)
  {
    TrackWords(Words(Trim(line)))
  }

  /** The words of a TRACK line: at least three, the second a `u8`, the third
      a track type; the first (the command) and any further words are ignored. */
  function TrackWords(w: seq<string>): (r: Result<(Track, uint8), CueError>)
    ensures |w| < 3 ==> r == Err(InvalidTrackLine)
    ensures |w| >= 3 && ParseU8(w[1]).None? ==> r == Err(CueError.ParseIntError)
    ensures |w| >= 3 && ParseU8(w[1]).Some? && TrackTypeFromStr(w[2]).Err? ==> r == Err(TrackTypeFromStr(w[2]).error)
    ensures r.Ok? <==> |w| >= 3 && ParseU8(w[1]).Some? && TrackTypeFromStr(w[2]).Ok?
    ensures r.Ok? ==> r.value == (NewTrack(TrackTypeFromStr(w[2]).value), ParseU8(w[1]).value)
  {
    if |w| < 3 then
      Err(InvalidTrackLine)
    else
      match ParseU8(w[1])
      case None => Err(CueError.ParseIntError)
      case Some(n) =>
        var t :- TrackTypeFromStr(w[2]);
        Ok((NewTrack(t), n))
  }

  /** `parse_index_line`: "INDEX <number> <mm:ss:ff>", read by IndexWords. */
  function ParseIndexLine(line: string): (r: Result<(uint8, MsfIndex), CueError>)
    ensures var w := Words(Trim(line));
            r.Ok? <==> |w| >= 3 && ParseU8(w[1]).Some? && TryFromStr(w[2]).Ok?
    ensures var w := Words(Trim(line));
            r.Ok? ==> |w| >= 3 && r.value == (ParseU8(w[1]).value, TryFromStr(w[2]).value)
    ensures r.Ok? ==> r.value.1.Valid() && ToLba(r.value.1) < MAX_LBA
  {
    IndexWords(Words(Trim(line)))
  }

  /** The words of an INDEX line: at least three, the second a `u8`, the third an address. */
  function IndexWords(w: seq<string>): (r: Result<(uint8, MsfIndex), CueError>)
    ensures |w| < 3 ==> r == Err(InvalidIndexLine)
    ensures |w| >= 3 && ParseU8(w[1]).None? ==> r == Err(CueError.ParseIntError)
    ensures |w| >= 3 && ParseU8(w[1]).Some? && TryFromStr(w[2]).Err? ==> r == Err(MsfParseError(TryFromStr(w[2]).error))
    ensures r.Ok? <==> |w| >= 3 && ParseU8(w[1]).Some? && TryFromStr(w[2]).Ok?
    ensures r.Ok? ==> r.value == (ParseU8(w[1]).value, TryFromStr(w[2]).value) && r.value.1.Valid()
  {
    if |w| < 3 then
      Err(InvalidIndexLine)
    else
      match ParseU8(w[1])
      case None => Err(CueError.ParseIntError)
      case Some(n) =>
        match TryFromStr(w[2])
        case Err(e) => Err(MsfParseError(e))
        case Ok(x) => Ok((n, x))
  }

  /** The positions of the two quotes of a FILE line with exactly two. */
  function QuotePositions(l: string): (r: (nat, nat))
    requires Count(l, '"') == 2
    ensures r.0 < r.1 < |l| && l[r.0] == '"' && l[r.1] == '"'
  {
    TwoQuotes(l);
    var i := IndexFrom(l, '"', 0);
    (i, IndexFrom(l, '"', i + 1))
  }

  /** The text between the two quotes holds no quote. */
  lemma NameBetweenQuotes(l: string)
    requires Count(l, '"') == 2
    ensures var (i, j) := QuotePositions(l); '"' !in l[i + 1..j]
  {
    var (i, j) := QuotePositions(l);
    var name := l[i + 1..j];
    assert forall m | 0 <= m < |name| :: name[m] == l[i + 1 + m];
  }

  /** A text with exactly two quotes has a first one and one after it. */
  lemma TwoQuotes(l: string)
    requires Count(l, '"') == 2
    ensures IndexFrom(l, '"', 0) < |l|
    ensures IndexFrom(l, '"', 0) + 1 <= |l| && IndexFrom(l, '"', IndexFrom(l, '"', 0) + 1) < |l|
  {
    var i := IndexFrom(l, '"', 0);
    if i == |l| {
      assert '"' !in l;
      CountAbsent(l, '"');
      assert false;
    }
    var j := IndexFrom(l, '"', i + 1);
    if j == |l| {
      assert l == l[..i] + [l[i]] + l[i + 1..];
      CountAppend(l[..i] + [l[i]], l[i + 1..], '"');
      CountAppend(l[..i], [l[i]], '"');
      CountAbsent(l[..i], '"');
      CountAbsent(l[i + 1..], '"');
      assert false;
    }
  }

  /** `parse_file_line`: "FILE "<name>" <mode>" with exactly two quotes; the
      mode is the text after the last whitespace. `files` gives the byte length
      of each file that opens; a name missing from it is an `IoError`, which
      comes before a bad mode. */
  function ParseFileLine(line: string, files: map<string, nat>): (r: Result<BinFile, CueError>)
    ensures Count(Trim(line), '"') != 2 ==> r == Err(FileNameParseError)
    ensures Count(Trim(line), '"') == 2 ==>
              var (i, j) := QuotePositions(Trim(line));
              && (r == Err(CueError.IoError) <==> Trim(line)[i + 1..j] !in files)
              && (r.Ok? ==> r.value.name == Trim(line)[i + 1..j])
    ensures r.Ok? ==> && r.value.name in files && r.value.byteLen == files[r.value.name]
                      && '"' !in r.value.name && r.value.tracks == []
                      && BinModeFromStr(AfterLastWhitespace(Trim(line))) == Ok(r.value.binMode)
    ensures r.Err? && r.error.UnknownBinMode? ==> BinModeFromStr(AfterLastWhitespace(Trim(line))).Err?
  {
    var l := Trim(line);
    if Count(l, '"') != 2 then
      Err(FileNameParseError)
    else
      var (i, j) := QuotePositions(l);
      var name := l[i + 1..j];
      NameBetweenQuotes(l);
      if name !in files then
        Err(CueError.IoError)
      else
        var mode :- BinModeFromStr(AfterLastWhitespace(l));
        Ok(BinFile(name, files[name], mode, []))
  }

  /** The canonical lines, as a cue sheet writes them. */
  function TrackLineText(n: uint8, t: TrackType): string
    requires n <= 99
  {
    "TRACK" + [' '] + (TwoDigits(n) + [' '] + TrackTypeName(t))
  }

  function IndexLineText(n: uint8, x: MsfIndex): string
    requires n <= 99 && x.Valid()
  {
    "INDEX" + [' '] + (TwoDigits(n) + [' '] + Format(x))
  }

  const FILE_PREFIX: string := "FILE \""

  function FileLineText(name: string, m: BinMode): string {
    FILE_PREFIX + name + (['"', ' '] + BinModeName(m))
  }

  lemma DigitsNoWhitespace(s: string)
    requires AllDigits(s)
    ensures NoWhitespace(s)
  {
  }

  lemma FormatNoWhitespace(x: MsfIndex)
    requires x.Valid()
    ensures Format(x) != [] && NoWhitespace(Format(x))
    ensures !IsWhitespace(Format(x)[0]) && !IsWhitespace(Format(x)[|Format(x)| - 1])
  {
    var t := Format(x);
    assert forall i :: 0 <= i < |t| ==> IsDigit(t[i]) || t[i] == ':';
  }

  lemma TwoWords(b: string, c: string)
    requires b != [] && c != [] && NoWhitespace(b) && NoWhitespace(c)
    ensures Words(b + [' '] + c) == [b, c]
  {
    WordsCons(b, ' ', c);
    WordsSingle(c);
  }

  /** Three words separated by single spaces are read back as those words. */
  lemma ThreeWords(a: string, b: string, c: string)
    requires a != [] && b != [] && c != []
    requires NoWhitespace(a) && NoWhitespace(b) && NoWhitespace(c)
    ensures Words(a + [' '] + (b + [' '] + c)) == [a, b, c]
  {
    WordsCons(a, ' ', b + [' '] + c);
    TwoWords(b, c);
  }

  /** The canonical TRACK line is already trimmed and has three words. */
  lemma TrackLineWords(n: uint8, t: TrackType)
    requires n <= 99
    ensures Words(Trim(TrackLineText(n, t))) == ["TRACK", TwoDigits(n), TrackTypeName(t)]
  {
    var d, k := TwoDigits(n), TrackTypeName(t);
    var l := TrackLineText(n, t);
    assert Trim(l) == l by {
      assert l[|l| - 1] == k[|k| - 1] && l[0] == 'T';
      TrimAll(l);
    }
    DigitsNoWhitespace(d);
    ThreeWords("TRACK", d, k);
  }

  lemma TrackWordsRoundTrip(n: uint8, t: TrackType)
    requires n <= 99
    ensures TrackWords(["TRACK", TwoDigits(n), TrackTypeName(t)]) == Ok((NewTrack(t), n))
  {
    ParseTwoDigits(n);
    TrackTypeNameRoundTrip(t);
  }

  /** Parsing the canonical TRACK line gives back its number and type. */
  lemma TrackLineRoundTrip(n: uint8, t: TrackType)
    requires n <= 99
    ensures ParseTrackLine(TrackLineText(n, t)) == Ok((NewTrack(t), n))
  {
    TrackLineWords(n, t);
    TrackWordsRoundTrip(n, t);
  }

  /** The canonical INDEX line is already trimmed and has three words. */
  lemma IndexLineWords(n: uint8, x: MsfIndex)
    requires n <= 99 && x.Valid()
    ensures Words(Trim(IndexLineText(n, x))) == ["INDEX", TwoDigits(n), Format(x)]
  {
    var d, f := TwoDigits(n), Format(x);
    var l := IndexLineText(n, x);
    FormatNoWhitespace(x);
    assert Trim(l) == l by {
      assert l[|l| - 1] == f[|f| - 1] && l[0] == 'I';
      TrimAll(l);
    }
    DigitsNoWhitespace(d);
    ThreeWords("INDEX", d, f);
  }

  lemma IndexWordsRoundTrip(n: uint8, x: MsfIndex)
    requires n <= 99 && x.Valid()
    ensures IndexWords(["INDEX", TwoDigits(n), Format(x)]) == Ok((n, x))
  {
    ParseTwoDigits(n);
    FormatRoundTrip(x);
  }

  /** Parsing the canonical INDEX line gives back its number and address. */
  lemma IndexLineRoundTrip(n: uint8, x: MsfIndex)
    requires n <= 99 && x.Valid()
    ensures ParseIndexLine(IndexLineText(n, x)) == Ok((n, x))
  {
    IndexLineWords(n, x);
    IndexWordsRoundTrip(n, x);
  }

  /** A prefix whose only quote is its last character holds one quote. */
  lemma CountQuoteLast(pre: string)
    requires pre != [] && pre[|pre| - 1] == '"' && '"' !in pre[..|pre| - 1]
    ensures Count(pre, '"') == 1
  {
    var n := |pre| - 1;
    assert pre == pre[..n] + [pre[n]];
    CountAppend(pre[..n], [pre[n]], '"');
    CountAbsent(pre[..n], '"');
  }

  /** A suffix whose only quote is its first character holds one quote. */
  lemma CountQuoteFirst(post: string)
    requires post != [] && post[0] == '"' && '"' !in post[1..]
    ensures Count(post, '"') == 1
  {
    assert post == [post[0]] + post[1..];
    CountAppend([post[0]], post[1..], '"');
    CountAbsent(post[1..], '"');
  }

  lemma CountQuotesAround(pre: string, name: string, post: string)
    requires Count(pre, '"') == 1 && '"' !in name && Count(post, '"') == 1
    ensures Count(pre + name + post, '"') == 2
  {
    CountAppend(pre + name, post, '"');
    CountAppend(pre, name, '"');
    CountAbsent(name, '"');
  }

  /** A name with no quote between a prefix ending in its only quote and a
      suffix starting with its only quote lies between QuotePositions. */
  lemma QuotesAround(pre: string, name: string, post: string)
    requires pre != [] && pre[|pre| - 1] == '"' && '"' !in pre[..|pre| - 1]
    requires '"' !in name && post != [] && post[0] == '"' && '"' !in post[1..]
    ensures Count(pre + name + post, '"') == 2
    ensures QuotePositions(pre + name + post) == (|pre| - 1, |pre| + |name|)
  {
    CountQuoteLast(pre);
    CountQuoteFirst(post);
    CountQuotesAround(pre, name, post);
    FirstQuote(pre, name, post);
    SecondQuote(pre, name, post);
  }

  lemma FirstQuote(pre: string, name: string, post: string)
    requires pre != [] && pre[|pre| - 1] == '"' && '"' !in pre[..|pre| - 1]
    ensures IndexFrom(pre + name + post, '"', 0) == |pre| - 1
  {
    var l, n := pre + name + post, |pre| - 1;
    assert l[n] == '"';
    assert forall m :: 0 <= m < n ==> l[m] == pre[..n][m];
    var k := IndexFrom(l, '"', 0);
    assert k <= n;
  }

  lemma SecondQuote(pre: string, name: string, post: string)
    requires pre != [] && '"' !in name && post != [] && post[0] == '"'
    ensures IndexFrom(pre + name + post, '"', |pre|) == |pre| + |name|
  {
    var l := pre + name + post;
    assert forall m :: |pre| <= m < |pre| + |name| ==> l[m] == name[m - |pre|];
    assert l[|pre| + |name|] == '"';
  }

  lemma FileLineQuotes(name: string, k: string)
    requires '"' !in name && '"' !in k
    ensures var l := FILE_PREFIX + name + (['"', ' '] + k);
      Count(l, '"') == 2 && QuotePositions(l) == (5, 6 + |name|)
  {
    var post := ['"', ' '] + k;
    assert FILE_PREFIX[..5] == "FILE ";
    assert post[1..] == [' '] + k;
    QuotesAround(FILE_PREFIX, name, post);
  }

  lemma FileLineMode(name: string, k: string)
    requires k != [] && NoWhitespace(k)
    ensures AfterLastWhitespace(FILE_PREFIX + name + (['"', ' '] + k)) == k
  {
    var a := FILE_PREFIX + name + ['"', ' '];
    assert FILE_PREFIX + name + (['"', ' '] + k) == a + k;
    AfterLastWhitespaceWord(a, k);
  }

  lemma FileLineTrimmed(name: string, k: string)
    requires k != [] && !IsWhitespace(k[|k| - 1])
    ensures var l := FILE_PREFIX + name + (['"', ' '] + k); Trim(l) == l
  {
    var l := FILE_PREFIX + name + (['"', ' '] + k);
    assert l[|l| - 1] == k[|k| - 1] && l[0] == 'F';
    TrimAll(l);
  }

  lemma FileLineName(name: string, k: string)
    ensures (FILE_PREFIX + name + (['"', ' '] + k))[6..6 + |name|] == name
  {
  }

  /** What ParseFileLine needs of a trimmed line to read a given file and mode. */
  lemma FileLineParsed(l: string, name: string, m: BinMode, files: map<string, nat>)
    requires name in files
    requires Trim(l) == l && Count(l, '"') == 2 && QuotePositions(l) == (5, 6 + |name|)
    requires 6 + |name| <= |l| && l[6..6 + |name|] == name && BinModeFromStr(AfterLastWhitespace(l)) == Ok(m)
    ensures ParseFileLine(l, files) == Ok(BinFile(name, files[name], m, []))
  {
  }

  /** A FILE line written with a mode keyword: trimmed, its name between its
      two quotes and the keyword after its last space. */
  lemma FileLineParts(name: string, k: string, m: BinMode)
    requires '"' !in name && k != [] && UpperAscii(k) && BinModeFromStr(k) == Ok(m)
    ensures var l := FILE_PREFIX + name + (['"', ' '] + k);
      && Trim(l) == l && Count(l, '"') == 2 && QuotePositions(l) == (5, 6 + |name|)
      && 6 + |name| <= |l| && l[6..6 + |name|] == name
      && BinModeFromStr(AfterLastWhitespace(l)) == Ok(m)
  {
    UpperAsciiPlain(k);
    FileLineTrimmed(name, k);
    FileLineQuotes(name, k);
    FileLineName(name, k);
    FileLineMode(name, k);
  }

  /** Keywords hold neither whitespace nor quotes. */
  lemma UpperAsciiPlain(k: string)
    requires UpperAscii(k)
    ensures NoWhitespace(k) && '"' !in k
  {
  }

  lemma BinModeNameUpper(m: BinMode)
    ensures BinModeName(m) != [] && UpperAscii(BinModeName(m))
  {
  }

  /** Parsing the canonical FILE line of a file that opens gives that file,
      with no tracks yet; the name may hold spaces but no quote. */
  lemma FileLineRoundTrip(name: string, m: BinMode, files: map<string, nat>)
    requires '"' !in name && name in files
    ensures ParseFileLine(FileLineText(name, m), files) == Ok(BinFile(name, files[name], m, []))
  {
    var k := BinModeName(m);
    BinModeNameUpper(m);
    BinModeNameRoundTrip(m);
    FileLineParts(name, k, m);
    FileLineParsed(FileLineText(name, m), name, m, files);
  }
}
