/** Concrete cases of the alignment and of the request outcome. */
module Scenarios {
  import opened Wrappers
  import opened Text
  import opened Paths
  import opened Alignment
  import opened Pipeline

  /** A 3 s turn of A against a 2 s turn of B on a 5 s segment: A wins. */
  lemma LongerTurnWins()
    ensures Dominant(Segment(0.0, 5.0, "hello"), [Turn(0.0, 3.0, "A"), Turn(3.0, 5.0, "B")]) == "A"
  {
    var s := Segment(0.0, 5.0, "hello");
    var turns := [Turn(0.0, 3.0, "A"), Turn(3.0, 5.0, "B")];
    assert turns[..1] == [Turn(0.0, 3.0, "A")];
    assert KeyOrder(s, turns) == ["A", "B"];
    assert Total(s, turns, "A") == 3.0;
    assert Total(s, turns, "B") == 2.0;
  }

  /** An exact tie goes to the label whose overlapping turn comes first,
      so the same two turns listed the other way round pick the other
      label. */
  lemma TieGoesToFirstTurn()
    ensures Dominant(Segment(0.0, 5.0, "hello"), [Turn(0.0, 2.5, "A"), Turn(2.5, 5.0, "B")]) == "A"
    ensures Dominant(Segment(0.0, 5.0, "hello"), [Turn(2.5, 5.0, "B"), Turn(0.0, 2.5, "A")]) == "B"
  {
    var s := Segment(0.0, 5.0, "hello");
    var ab := [Turn(0.0, 2.5, "A"), Turn(2.5, 5.0, "B")];
    var ba := [Turn(2.5, 5.0, "B"), Turn(0.0, 2.5, "A")];
    assert ab[..1] == [Turn(0.0, 2.5, "A")];
    assert ba[..1] == [Turn(2.5, 5.0, "B")];
    assert KeyOrder(s, ab) == ["A", "B"];
    assert KeyOrder(s, ba) == ["B", "A"];
    assert Total(s, ab, "A") == Total(s, ab, "B") == 2.5;
    assert Total(s, ba, "A") == Total(s, ba, "B") == 2.5;
  }

  /** A segment that no turn reaches, or that a turn only touches, is
      "UNKNOWN". */
  lemma NoOverlapIsUnknown()
    ensures Dominant(Segment(10.0, 12.0, "hi"), [Turn(0.0, 5.0, "A")]) == Unknown
    ensures Dominant(Segment(0.0, 5.0, "x"), [Turn(5.0, 8.0, "B")]) == Unknown
    ensures Dominant(Segment(0.0, 5.0, "x"), []) == Unknown
  {
    assert KeyOrder(Segment(10.0, 12.0, "hi"), [Turn(0.0, 5.0, "A")]) == [];
    assert KeyOrder(Segment(0.0, 5.0, "x"), [Turn(5.0, 8.0, "B")]) == [];
  }

  /** Two short turns of A (2 s each) beat one longer turn of B (3 s). */
  lemma SmallTurnsAddUp()
    ensures Dominant(Segment(0.0, 7.0, "x"), [Turn(0.0, 2.0, "A"), Turn(2.0, 5.0, "B"), Turn(5.0, 7.0, "A")]) == "A"
  {
    var s := Segment(0.0, 7.0, "x");
    var turns := [Turn(0.0, 2.0, "A"), Turn(2.0, 5.0, "B"), Turn(5.0, 7.0, "A")];
    var first := [Turn(0.0, 2.0, "A")];
    var firstTwo := [Turn(0.0, 2.0, "A"), Turn(2.0, 5.0, "B")];
    assert turns[..2] == firstTwo;
    assert firstTwo[..1] == first;
    assert KeyOrder(s, first) == ["A"];
    assert KeyOrder(s, firstTwo) == ["A", "B"];
    assert KeyOrder(s, turns) == ["A", "B"];
    assert Total(s, firstTwo, "A") == 2.0;
    assert Total(s, firstTwo, "B") == 3.0;
    assert Total(s, turns, "A") == 4.0;
    assert Total(s, turns, "B") == 3.0;
  }

  /** A failed conversion ends the request with an error and no entries,
      whatever the engines would have produced. */
  lemma ConversionFailureIsAnError(diarReady: bool, converted: bool,
                                   transcript: Result<seq<Segment>, string>,
                                   diarization: Result<seq<Track>, string>)
    ensures Respond(diarReady, Conversion(1, converted), converted, transcript, diarization).Failure?
    ensures Respond(diarReady, Conversion(0, false), false, transcript, diarization) == Failure(ConversionFailed)
  {
  }

  /** Without a diarization pipeline a one-segment transcript comes back
      with label "N/A" and its text untouched. */
  lemma NoDiarizationIsNotAvailable()
    ensures Respond(false, Conversion(0, true), true, Success([Segment(0.0, 1.0, " x")]), Failure("unused"))
            == Success([AlignedSegment(0.0, 1.0, " x", NotAvailable)])
  {
    var entries := Unlabelled([Segment(0.0, 1.0, " x")]);
    assert entries[0] == AlignedSegment(0.0, 1.0, " x", NotAvailable);
    assert entries == [AlignedSegment(0.0, 1.0, " x", NotAvailable)];
  }

  /** `os.path.splitext` keeps only the last extension: "talk.tar.gz"
      gets ".gz", and a leading-dot name such as ".env" gets ".wav". */
  lemma LastExtensionOnly()
    ensures UploadSuffix("talk.tar.gz") == ".gz"
    ensures UploadSuffix(".env") == ".wav"
  {
    var p := "talk.tar.gz";
    assert LastIndex(p, '/') == -1;
    assert p[..10] == "talk.tar.g" && p[..9] == "talk.tar.";
    assert LastIndex(p, '.') == 8;
    assert p[0] != '.';
    assert p[8..] == ".gz";
    assert SplitExt(p).1 == ".gz";
    var q := ".env";
    assert LastIndex(q, '/') == -1;
    assert LastIndex(".", '.') == 0;
    assert ".e"[..1] == "." && LastIndex(".e", '.') == 0;
    assert ".en"[..2] == ".e" && LastIndex(".en", '.') == 0;
    assert q[..3] == ".en" && LastIndex(q, '.') == 0;
    assert SplitExt(q).1 == [];
  }

  /** An upload whose copy into the temporary file fails leaves that file
      behind: the request fails, and "/tmp/up.gz" still exists. */
  method UploadCopyFailureLeaksFile() returns (server: Server)
    ensures server.files == {"/tmp/up.gz"}
  {
    var transcribe := (path: string) => Failure("unused");
    var diarize := (path: string, options: map<string, int>) => Failure("unused");
    LastExtensionOnly();
    server := new Server(true, true, {});
    var r := server.Diarize("talk.tar.gz", None, None, "/tmp/up", CopyFails, Conversion(0, true), transcribe, diarize);
    assert r == Failure(UploadFailed);
    assert "/tmp/up" + ".gz" == "/tmp/up.gz";
  }

  /** With the copy inside the cleanup, the same request leaves no file. */
  method UploadCopyFailureCleanedUp() returns (server: Server)
    ensures server.files == {}
  {
    var transcribe := (path: string) => Failure("unused");
    var diarize := (path: string, options: map<string, int>) => Failure("unused");
    server := new Server(true, true, {});
    var r := server.DiarizeCleaned("talk.tar.gz", None, None, "/tmp/up", CopyFails, Conversion(0, true), transcribe, diarize);
    assert r == Failure(UploadFailed);
  }

  /** When the temporary file cannot be created, the request fails and no
      file appears. */
  method UploadCreateFailureTouchesNothing() returns (server: Server)
    ensures server.files == {"/tmp/other.wav"}
  {
    var transcribe := (path: string) => Failure("unused");
    var diarize := (path: string, options: map<string, int>) => Failure("unused");
    LastExtensionOnly();
    server := new Server(true, true, {"/tmp/other.wav"});
    var r := server.Diarize("talk.tar.gz", None, None, "/tmp/up", CreateFails, Conversion(0, true), transcribe, diarize);
    assert r == Failure(UploadFailed);
  }
}
