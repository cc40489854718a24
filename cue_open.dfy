/** The line state machine of `Cuesheet::_open` in src/cue.rs, which is
    `Cuesheet::from_cue_file` in src/lib.rs line for line. The text of the cue
    sheet and the byte lengths of the bin files it names are inputs; reading
    them from disk is not modelled. */
module CueOpen {
  import opened Wrappers
  import opened Strings
  import opened Index
  import opened CueSheet
  import opened CueLayout

  /** The loop variables of `_open`: the finished bin files, the number of
      the last TRACK, the bin file being read, its track being read, and the
      earlier tracks of that bin file. */
  datatype OpenState = OpenState(
    binFiles: seq<BinFile>,
    trackNumber: uint8,
    currentBin: Option<BinFile>,
    currentTrack: Option<Track>,
    pending: seq<Track>)

  const INITIAL: OpenState := OpenState([], 0, None, None, [])

  /** The tracks of the bin file being read, the track being read included. */
  function BinTracks(st: OpenState): seq<Track> {
    if st.currentTrack.Some? then st.pending + [st.currentTrack.value] else st.pending
  }

  /** The commands `_open` accepts and does nothing with. */
  predicate Ignored(cmd: string) {
    || cmd == "PREGAP" || cmd == "FLAGS" || cmd == "CDTEXTFILE" || cmd == "CATALOG"
    || cmd == "PERFORMER" || cmd == "TITLE" || cmd == "ISRC" || cmd == "REM"
  }

  /** The bin file being read, if any, finalised onto the finished ones. */
  function CloseBin(st: OpenState): Result<seq<BinFile>, CueError> {
    match st.currentBin
    case None => Ok(st.binFiles)
    case Some(b) =>
      var f :- FinalizeSpec(b.(tracks := BinTracks(st)));
      Ok(st.binFiles + [f])
  }

  /** FILE: close the bin file being read, then start the one the line names. */
  function FileCommand(st: OpenState, line: string, files: map<string, nat>): (r: Result<OpenState, CueError>)
    ensures CloseBin(st).Err? ==> r == Err(CloseBin(st).error)
    ensures r.Ok? <==> CloseBin(st).Ok? && ParseFileLine(line, files).Ok?
    ensures r.Ok? ==> r.value.currentBin == Some(ParseFileLine(line, files).value) && r.value.trackNumber == st.trackNumber
    ensures r.Ok? && st.currentBin.Some? ==>
              r.value.binFiles == CloseBin(st).value && r.value.currentTrack.None? && r.value.pending == []
    ensures r.Ok? && st.currentBin.None? ==> r.value == st.(currentBin := Some(ParseFileLine(line, files).value))
  {
    var done :- CloseBin(st);
    var b :- ParseFileLine(line, files);
    if st.currentBin.Some? then Ok(OpenState(done, st.trackNumber, Some(b), None, []))
    else Ok(st.(currentBin := Some(b)))
  }

  /** The `u8` successor, wrapping as a release build does. */
  function Successor(n: uint8): (r: uint8)
    ensures r == (n + 1) % 256
  {
    if n == 255 then 0 else n + 1
  }

  /** TRACK: only inside a bin file; the line must parse and carry the number
      after the last one, counted in `u8`. */
  function TrackCommand(st: OpenState, line: string): (r: Result<OpenState, CueError>)
    ensures st.currentBin.None? ==> r == Err(TrackCommandWithoutBinFile)
    ensures r.Ok? <==> st.currentBin.Some? && ParseTrackLine(line).Ok? && ParseTrackLine(line).value.1 == Successor(st.trackNumber)
    ensures r.Ok? ==>
              && r.value.binFiles == st.binFiles && r.value.currentBin == st.currentBin
              && r.value.trackNumber == Successor(st.trackNumber)
              && BinTracks(r.value) == BinTracks(st) + [ParseTrackLine(line).value.0]
  {
    if st.currentBin.None? then
      Err(TrackCommandWithoutBinFile)
    else
      var tn :- ParseTrackLine(line);
      if tn.1 != Successor(st.trackNumber) then Err(InvalidTrackNumber)
      else Ok(st.(trackNumber := tn.1, currentTrack := Some(tn.0), pending := BinTracks(st)))
  }

  /** The sector an INDEX line that parsed gives its index. */
  function IndexLba(p: Result<(uint8, MsfIndex), CueError>): (n: uint32)
    requires p.Ok? && p.value.1.Valid()
  {
    ToLba(p.value.1)
  }

  /** INDEX: only inside a track; a second INDEX 00 is refused, any other
      number (re)sets that index to the sector of the address. */
  function IndexCommand(st: OpenState, line: string): (r: Result<OpenState, CueError>)
    ensures st.currentTrack.None? ==> r == Err(IndexCommandWithoutTrack)
    ensures r.Ok? <==>
              && st.currentTrack.Some? && ParseIndexLine(line).Ok?
              && !(ParseIndexLine(line).value.0 == 0 && 0 in st.currentTrack.value.indices)
    ensures r.Ok? ==>
              var t := st.currentTrack.value;
              && r.value.binFiles == st.binFiles && r.value.currentBin == st.currentBin
              && r.value.trackNumber == st.trackNumber && r.value.pending == st.pending
              && r.value.currentTrack == Some(t.(indices := t.indices[ParseIndexLine(line).value.0 := IndexLba(ParseIndexLine(line))]))
  {
    match st.currentTrack
    case None => Err(IndexCommandWithoutTrack)
    case Some(t) =>
      var p := ParseIndexLine(line);
      if p.Err? then Err(p.error)
      else if p.value.0 == 0 && 0 in t.indices then Err(InvalidIndexNumber)
      else Ok(st.(currentTrack := Some(t.(indices := t.indices[p.value.0 := IndexLba(p)]))))
  }

  /** One line of the cue sheet; a line with no word is skipped, and the
      command word is compared upper-cased. */
  function Step(st: OpenState, line: string, files: map<string, nat>): (r: Result<OpenState, CueError>)
    ensures FirstWord(line).None? ==> r == Ok(st)
    ensures FirstWord(line).Some? ==>
              var cmd := ToUppercase(FirstWord(line).value);
              && (cmd != "FILE" && cmd != "TRACK" && cmd != "INDEX" && !Ignored(cmd) ==> r == Err(InvalidCommandError(cmd)))
  {
    match FirstWord(line)
    case None => Ok(st)
    case Some(w) =>
      var cmd := ToUppercase(w);
      if cmd == "FILE" then FileCommand(st, line, files)
      else if cmd == "TRACK" then TrackCommand(st, line)
      else if cmd == "INDEX" then IndexCommand(st, line)
      else if Ignored(cmd) then Ok(st)
      else Err(InvalidCommandError(cmd))
  }

  /** The state after the given lines, or the error of the first line that
      fails; a state the lines reach keeps the loop's invariant. */
  function RunLines(lines: seq<string>, files: map<string, nat>): (r: Result<OpenState, CueError>)
    ensures r.Ok? ==> Inv(r.value)
  {
    if lines == [] then Ok(INITIAL)
    else
      var st :- RunLines(lines[..|lines| - 1], files);
      var next := Step(st, lines[|lines| - 1], files);
      if next.Ok? then StepKeeps(st, lines[|lines| - 1], files); next else next
  }

  /** After the last line: there must be a bin file, and a track in it. */
  function Finish(st: OpenState): (r: Result<seq<BinFile>, CueError>)
    ensures st.currentBin.None? ==> r == Err(NoBinFiles)
    ensures st.currentBin.Some? && st.currentTrack.None? ==> r == Err(CueError.NoTracks)
    ensures r.Ok? ==> |r.value| == |st.binFiles| + 1 && r.value[..|st.binFiles|] == st.binFiles
  {
    match st.currentBin
    case None => Err(NoBinFiles)
    case Some(b) =>
      if st.currentTrack.None? then Err(CueError.NoTracks)
      else
        var f :- FinalizeSpec(b.(tracks := BinTracks(st)));
        Ok(st.binFiles + [f])
  }

  /** The bin files of a cue sheet, or why it is refused. A cue sheet that
      opens gives at least one bin file, each with tracks that all have a
      first index and are finalised, and as many tracks in all (modulo 256)
      as the number of the last TRACK line. */
  function Open(text: string, files: map<string, nat>): (r: Result<seq<BinFile>, CueError>)
    ensures r.Ok? ==>
              && r.value != []
              && (forall k :: 0 <= k < |r.value| ==> Finished(r.value[k]))
              && RunLines(Lines(text), files).Ok?
              && NumTracks(r.value) % 256 == RunLines(Lines(text), files).value.trackNumber
  {
    var st :- RunLines(Lines(text), files);
    var bins := Finish(st);
    if bins.Ok? then FinishKeeps(st); bins else bins
  }

  lemma RunLinesStep(lines: seq<string>, i: nat, files: map<string, nat>)
    requires i < |lines| && RunLines(lines[..i], files).Ok?
    ensures RunLines(lines[..i + 1], files) == Step(RunLines(lines[..i], files).value, lines[i], files)
  {
    assert lines[..i + 1][..i] == lines[..i];
  }

  lemma RunLinesErr(lines: seq<string>, files: map<string, nat>)
    requires lines != [] && RunLines(lines[..|lines| - 1], files).Err?
    ensures RunLines(lines, files) == RunLines(lines[..|lines| - 1], files)
  {
  }

  /** Once a line fails, the error is the result of the whole sheet. */
  lemma {:induction false} ErrorPersists(lines: seq<string>, i: nat, files: map<string, nat>)
    requires i <= |lines| && RunLines(lines[..i], files).Err?
    ensures RunLines(lines, files) == RunLines(lines[..i], files)
    decreases |lines| - i
  {
    if i == |lines| {
      assert lines[..i] == lines;
    } else {
      assert lines[..i + 1][..i] == lines[..i];
      RunLinesErr(lines[..i + 1], files);
      ErrorPersists(lines, i + 1, files);
    }
  }

  /** The FILE branch of the loop. */
  method ReadFile(st: OpenState, line: string, files: map<string, nat>) returns (r: Result<OpenState, CueError>)
    ensures r == FileCommand(st, line, files)
  {
    var binFiles, currentBin, currentTrack, pending := st.binFiles, st.currentBin, st.currentTrack, st.pending;
    if currentBin.Some? {
      if currentTrack.Some? {
        pending := pending + [currentTrack.value];
      }
      currentTrack := None;
      var f := FinalizeTracks(currentBin.value.(tracks := pending));
      pending := [];
      if f.Err? {
        return Err(f.error);
      }
      binFiles := binFiles + [f.value];
    }
    var parsed := ParseFileLine(line, files);
    if parsed.Err? {
      return Err(parsed.error);
    }
    currentBin := Some(parsed.value);
    r := Ok(OpenState(binFiles, st.trackNumber, currentBin, currentTrack, pending));
  }

  /** The TRACK branch of the loop. */
  method ReadTrack(st: OpenState, line: string) returns (r: Result<OpenState, CueError>)
    ensures r == TrackCommand(st, line)
  {
    if st.currentBin.None? {
      return Err(TrackCommandWithoutBinFile);
    }
    var pending := st.pending;
    if st.currentTrack.Some? {
      pending := pending + [st.currentTrack.value];
    }
    var parsed := ParseTrackLine(line);
    if parsed.Err? {
      return Err(parsed.error);
    }
    var (track, n) := parsed.value;
    if n != Successor(st.trackNumber) {
      return Err(InvalidTrackNumber);
    }
    r := Ok(st.(trackNumber := n, currentTrack := Some(track), pending := pending));
  }

  /** The INDEX branch of the loop. */
  method ReadIndex(st: OpenState, line: string) returns (r: Result<OpenState, CueError>)
    ensures r == IndexCommand(st, line)
  {
    if st.currentTrack.None? {
      return Err(IndexCommandWithoutTrack);
    }
    var parsed := ParseIndexLine(line);
    if parsed.Err? {
      return Err(parsed.error);
    }
    var n := parsed.value.0;
    var track := st.currentTrack.value;
    if n == 0 {
      if 0 in track.indices {
        return Err(InvalidIndexNumber);
      }
      track := track.(indices := track.indices[0 := IndexLba(parsed)]);
    } else {
      track := track.(indices := track.indices[n := IndexLba(parsed)]);
    }
    r := Ok(st.(currentTrack := Some(track)));
  }

  /** The body of the loop: one line, dispatched on its first word. */
  method ReadLine(st: OpenState, line: string, files: map<string, nat>) returns (r: Result<OpenState, CueError>)
    ensures r == Step(st, line, files)
  {
    var word := FirstWord(line);
    if word.None? {
      return Ok(st);
    }
    var cmd := ToUppercase(word.value);
    if cmd == "FILE" {
      r := ReadFile(st, line, files);
    } else if cmd == "TRACK" {
      r := ReadTrack(st, line);
    } else if cmd == "INDEX" {
      r := ReadIndex(st, line);
    } else if Ignored(cmd) {
      r := Ok(st);
    } else {
      r := Err(InvalidCommandError(cmd));
    }
  }

  /** `_open`: the loop over the lines, then the last bin file. */
  method ParseCue(text: string, files: map<string, nat>) returns (r: Result<seq<BinFile>, CueError>)
    ensures r == Open(text, files)
  {
    var lines := Lines(text);
    var st := INITIAL;
    var i := 0;
    while i < |lines|
      invariant 0 <= i <= |lines| && RunLines(lines[..i], files) == Ok(st)
    {
      RunLinesStep(lines, i, files);
      var next := ReadLine(st, lines[i], files);
      if next.Err? {
        ErrorPersists(lines, i + 1, files);
        return Err(next.error);
      }
      st := next.value;
      i := i + 1;
    }
    assert lines[..|lines|] == lines;
    if st.currentBin.None? {
      return Err(NoBinFiles);
    }
    if st.currentTrack.None? {
      return Err(CueError.NoTracks);
    }
    var f := FinalizeTracks(st.currentBin.value.(tracks := st.pending + [st.currentTrack.value]));
    if f.Err? {
      return Err(f.error);
    }
    r := Ok(st.binFiles + [f.value]);
  }

  // ---------------------------------------------------------------------
  // What the loop keeps

  /** A bin file as `_open` hands it on: with tracks, each with a first
      index, and a fixed point of finalisation. */
  predicate Finished(b: BinFile) {
    && b.tracks != [] && AllHaveFirstIndex(b.tracks)
    && b.tracks == Finalized(b.tracks, NumSectors(b))
  }

  /** What holds of the loop variables after every line: nothing is pending
      before the first FILE, the finished bin files are finished, and the
      track counter is the number of tracks read so far in the whole sheet,
      in `u8` (it is not reset by FILE). */
  predicate Inv(st: OpenState) {
    && (st.currentBin.None? ==> st.binFiles == [] && st.currentTrack.None? && st.pending == [])
    && (forall k :: 0 <= k < |st.binFiles| ==> Finished(st.binFiles[k]))
    && st.trackNumber == (NumTracks(st.binFiles) + |BinTracks(st)|) % 256
  }

  /** A bin file finalised onto the list keeps the list finished and adds its tracks to the count. */
  lemma CloseOne(done: seq<BinFile>, b: BinFile)
    requires (forall k :: 0 <= k < |done| ==> Finished(done[k])) && FinalizeSpec(b).Ok?
    ensures var f := FinalizeSpec(b).value;
      && (forall k :: 0 <= k < |done + [f]| ==> Finished((done + [f])[k]))
      && NumTracks(done + [f]) == NumTracks(done) + |b.tracks|
  {
    var f := FinalizeSpec(b).value;
    FinalizedKeeps(b.tracks, NumSectors(b));
    FinalizedIdempotent(b.tracks, NumSectors(b));
    assert Finished(f);
    NumTracksAppend(done, [f]);
    assert NumTracks([f]) == |f.tracks| + NumTracks([]);
  }

  /** Closing the bin file being read keeps the invariant. */
  lemma CloseKeeps(st: OpenState, b: BinFile)
    requires Inv(st) && st.currentBin.Some?
    requires FinalizeSpec(st.currentBin.value.(tracks := BinTracks(st))).Ok?
    ensures var f := FinalizeSpec(st.currentBin.value.(tracks := BinTracks(st))).value;
      Inv(OpenState(st.binFiles + [f], st.trackNumber, Some(b), None, []))
  {
    CloseOne(st.binFiles, st.currentBin.value.(tracks := BinTracks(st)));
  }

  /** A new track in the bin file being read, numbered one on, keeps the invariant. */
  lemma AddTrackKeeps(st: OpenState, next: OpenState)
    requires Inv(st) && st.currentBin.Some?
    requires next.binFiles == st.binFiles && next.currentBin == st.currentBin
    requires next.trackNumber == Successor(st.trackNumber)
    requires next.currentTrack.Some? && next.pending == BinTracks(st)
    ensures Inv(next)
  {
    AddMod(NumTracks(st.binFiles) + |BinTracks(st)|, 1, 256);
  }

  /** Changing the track being read, but not the number of tracks, keeps the invariant. */
  lemma SameCountKeeps(st: OpenState, next: OpenState)
    requires Inv(st) && st.currentTrack.Some? && next.currentTrack.Some?
    requires next.binFiles == st.binFiles && next.currentBin == st.currentBin
    requires next.trackNumber == st.trackNumber && next.pending == st.pending
    ensures Inv(next)
  {
  }

  /** The state FILE leaves after closing a bin file. */
  lemma FileAfterClose(st: OpenState, line: string, files: map<string, nat>)
    requires st.currentBin.Some? && FileCommand(st, line, files).Ok?
    ensures FinalizeSpec(st.currentBin.value.(tracks := BinTracks(st))).Ok?
    ensures FileCommand(st, line, files).value ==
              OpenState(st.binFiles + [FinalizeSpec(st.currentBin.value.(tracks := BinTracks(st))).value],
                        st.trackNumber, Some(ParseFileLine(line, files).value), None, [])
  {
  }

  /** The first FILE line only starts a bin file. */
  lemma FirstFileKeeps(st: OpenState, b: BinFile)
    requires Inv(st) && st.currentBin.None?
    ensures Inv(st.(currentBin := Some(b)))
  {
    assert BinTracks(st.(currentBin := Some(b))) == BinTracks(st) == [];
  }

  lemma FileKeeps(st: OpenState, line: string, files: map<string, nat>)
    requires Inv(st) && FileCommand(st, line, files).Ok?
    ensures Inv(FileCommand(st, line, files).value)
  {
    if st.currentBin.Some? {
      FileAfterClose(st, line, files);
      CloseKeeps(st, ParseFileLine(line, files).value);
    } else {
      FirstFileKeeps(st, ParseFileLine(line, files).value);
    }
  }

  lemma TrackKeeps(st: OpenState, line: string)
    requires Inv(st) && TrackCommand(st, line).Ok?
    ensures Inv(TrackCommand(st, line).value)
  {
    AddTrackKeeps(st, TrackCommand(st, line).value);
  }

  lemma IndexKeeps(st: OpenState, line: string)
    requires Inv(st) && IndexCommand(st, line).Ok?
    ensures Inv(IndexCommand(st, line).value)
  {
    SameCountKeeps(st, IndexCommand(st, line).value);
  }

  lemma StepKeeps(st: OpenState, line: string, files: map<string, nat>)
    requires Inv(st) && Step(st, line, files).Ok?
    ensures Inv(Step(st, line, files).value)
  {
    var word := FirstWord(line);
    if word.Some? {
      var cmd := ToUppercase(word.value);
      if cmd == "FILE" {
        FileKeeps(st, line, files);
      } else if cmd == "TRACK" {
        TrackKeeps(st, line);
      } else if cmd == "INDEX" {
        IndexKeeps(st, line);
      }
    }
  }

  /** Under the invariant the next TRACK number is one more than the tracks read, modulo 256. */
  lemma SuccessorCounts(st: OpenState)
    requires Inv(st)
    ensures Successor(st.trackNumber) == (NumTracks(st.binFiles) + |BinTracks(st)| + 1) % 256
  {
    AddMod(NumTracks(st.binFiles) + |BinTracks(st)|, 1, 256);
  }

  /** TRACK numbers count the tracks of the whole sheet: in a state the
      lines can reach (RunLines), a TRACK line inside a bin file is accepted
      exactly when its number is the `u8` successor of the counter, which is
      one more than the tracks read so far, modulo 256. */
  lemma TrackNumberCounts(st: OpenState, line: string)
    requires Inv(st) && st.currentBin.Some? && ParseTrackLine(line).Ok?
    ensures TrackCommand(st, line).Ok? <==> ParseTrackLine(line).value.1 == Successor(st.trackNumber)
    ensures Successor(st.trackNumber) == (NumTracks(st.binFiles) + |BinTracks(st)| + 1) % 256
  {
    SuccessorCounts(st);
  }

  /** The last bin file, finalised onto the list, leaves a finished list
      holding as many tracks, modulo 256, as the counter says. */
  lemma FinishKeeps(st: OpenState)
    requires Inv(st) && Finish(st).Ok?
    ensures var bins := Finish(st).value;
      && bins != []
      && (forall k :: 0 <= k < |bins| ==> Finished(bins[k]))
      && NumTracks(bins) % 256 == st.trackNumber
  {
    CloseOne(st.binFiles, st.currentBin.value.(tracks := BinTracks(st)));
  }

  /** Only FILE leaves the state before the first bin file changed. */
  lemma NonFileStep(line: string, files: map<string, nat>)
    requires FirstWord(line).None? || ToUppercase(FirstWord(line).value) != "FILE"
    requires Step(INITIAL, line, files).Ok?
    ensures Step(INITIAL, line, files) == Ok(INITIAL)
  {
  }

  /** A sheet none of whose lines is a FILE command parses to the initial
      state or fails, so it is refused. */
  lemma {:induction false} NoFileRefused(lines: seq<string>, files: map<string, nat>)
    requires forall k :: 0 <= k < |lines| ==> FirstWord(lines[k]).None? || ToUppercase(FirstWord(lines[k]).value) != "FILE"
    ensures RunLines(lines, files).Ok? ==> RunLines(lines, files) == Ok(INITIAL)
    ensures RunLines(lines, files).Err? || Finish(RunLines(lines, files).value) == Err(NoBinFiles)
  {
    if lines != [] {
      var init := lines[..|lines| - 1];
      NoFileRefused(init, files);
      if RunLines(init, files).Ok? && Step(INITIAL, lines[|lines| - 1], files).Ok? {
        NonFileStep(lines[|lines| - 1], files);
      }
    }
  }
}
