/** Reading one solve's stream: which timetable is kept, and what is reported beside it. */
module SolveStream {
  import opened Basics

  datatype Phase = Progress | Solution | Finished

  datatype Status = Unspecified | Feasible | Infeasible | Timeout | CancelledThere | Error

  /** The settings a node echoes; 0 when it says none. */
  datatype Config = Config(workers: nat, seconds: nat)

  /** Timetables, scores and the rest are opaque; `score` carries the quality with it. */
  datatype Frame = Frame(phase: Phase, status: Status, message: string, config: Option<Config>,
                         snapshot: Option<int>, objective: int, score: Option<int>, verdict: Option<int>,
                         validation: Option<int>, core: Option<int>, preflightRefused: bool)

  datatype Found = Found(hasSchedule: bool, preflightRefused: bool, snapshot: Option<int>, status: Status,
                         objective: int, message: string, score: Option<int>, verdict: Option<int>,
                         validation: Option<int>, explanation: Option<int>, config: Option<Config>)

  const Nothing := Found(false, false, None, Unspecified, 0, "", None, None, None, None, None)

  /** This frame brings a timetable that is no improvement: its objective is higher. */
  predicate Worse(received: bool, best: int, f: Frame) {
    received && f.snapshot.Some? && f.objective > best
  }

  /** The frame counts: its timetable, if it has one, and each part of an analysis it brings. */
  function Keep(found: Found, f: Frame): Found {
    var told := found.(verdict := if f.verdict.Some? then f.verdict else found.verdict,
                       validation := if f.validation.Some? then f.validation else found.validation,
                       score := if f.score.Some? then f.score else found.score);
    if f.snapshot.Some? then told.(snapshot := f.snapshot, objective := f.objective, hasSchedule := true) else told
  }

  function Absorb(found: Found, f: Frame): Found {
    var heard := found.(message := if f.message != "" then f.message else found.message,
                        config := if f.config.Some? then f.config else found.config);
    match f.phase
    case Progress => heard
    case Solution => if Worse(heard.hasSchedule, heard.objective, f) then heard else Keep(heard, f)
    case Finished =>
      var ended := heard.(status := f.status, preflightRefused := f.preflightRefused);
      var kept := if Worse(ended.hasSchedule, ended.objective, f) then ended else Keep(ended, f);
      if f.core.Some? then kept.(explanation := f.core) else kept
  }

  /** A frame whose timetable counts. */
  predicate Carries(f: Frame) {
    f.phase != Progress && f.snapshot.Some?
  }

  /** The last of the best timetables these frames carry. */
  ghost predicate LastBest(frames: seq<Frame>, i: int, counts: Frame -> bool) {
    && 0 <= i < |frames| && counts(frames[i])
    && forall k :: 0 <= k < |frames| && counts(frames[k]) ==>
         frames[i].objective <= frames[k].objective && (k > i ==> frames[i].objective < frames[k].objective)
  }

  /** What was kept is the last of the best; nothing is kept only when nothing arrived. */
  ghost predicate KeepsBest(frames: seq<Frame>, kept: Option<int>, objective: int, counts: Frame -> bool) {
    if kept.None? then forall k :: 0 <= k < |frames| ==> !counts(frames[k])
    else exists i :: LastBest(frames, i, counts) && frames[i].snapshot == kept && frames[i].objective == objective
  }

  /** One more frame: a worse one changes nothing, any other that counts replaces it. */
  lemma KeepsBestNext(frames: seq<Frame>, f: Frame, kept: Option<int>, objective: int, counts: Frame -> bool)
    requires KeepsBest(frames, kept, objective, counts) && (counts(f) ==> f.snapshot.Some?)
    ensures var taken := counts(f) && !(kept.Some? && f.objective > objective);
            KeepsBest(frames + [f], if taken then f.snapshot else kept,
                      if taken then f.objective else objective, counts)
  {
    var more := frames + [f];
    assert more[|frames|] == f && forall k :: 0 <= k < |frames| ==> more[k] == frames[k];
    var taken := counts(f) && !(kept.Some? && f.objective > objective);
    if taken {
      assert LastBest(more, |frames|, counts);
    } else if kept.Some? {
      var i :| LastBest(frames, i, counts) && frames[i].snapshot == kept && frames[i].objective == objective;
      assert LastBest(more, i, counts);
    }
  }

  ghost predicate Sound(frames: seq<Frame>, found: Found) {
    && (found.hasSchedule <==> found.snapshot.Some?)
    && KeepsBest(frames, found.snapshot, found.objective, Carries)
  }

  /** What was kept, frame by frame: the last of those timetables that no other has a lower objective than. */
  lemma BestInWords(frames: seq<Frame>, found: Found)
    requires Sound(frames, found)
    ensures found.hasSchedule <==> found.snapshot.Some?
    ensures found.snapshot.None? ==>
              forall k :: 0 <= k < |frames| ==> frames[k].phase == Progress || frames[k].snapshot == None
    ensures found.snapshot.Some? ==>
              exists i :: 0 <= i < |frames| && frames[i].phase != Progress
                && frames[i].snapshot == found.snapshot && frames[i].objective == found.objective
                && forall k :: 0 <= k < |frames| && frames[k].phase != Progress && frames[k].snapshot != None ==>
                     frames[i].objective <= frames[k].objective && (k > i ==> frames[i].objective < frames[k].objective)
  {
  }

  lemma AbsorbKeepsBest(frames: seq<Frame>, found: Found, f: Frame)
    requires Sound(frames, found)
    ensures Sound(frames + [f], Absorb(found, f))
  {
    hide KeepsBest, Absorb;
    KeepsBestNext(frames, f, found.snapshot, found.objective, Carries);
    AbsorbTakes(found, f);
  }

  lemma AbsorbTakes(found: Found, f: Frame)
    ensures var taken := Carries(f) && !(found.hasSchedule && f.objective > found.objective);
            var after := Absorb(found, f);
            && after.snapshot == (if taken then f.snapshot else found.snapshot)
            && after.objective == (if taken then f.objective else found.objective)
            && after.hasSchedule == (taken || found.hasSchedule)
  {
  }

  /**
   * Reads the stream to its end. A broken stream returns what it had with the error: what is kept is the last of
   * the best timetables of the frames that arrived.
   */
  method Wait(stream: seq<Frame>, broken: Option<string>) returns (found: Found, error: Option<string>)
    ensures Sound(stream, found) && found == Folded(stream) && error == broken
    ensures found.hasSchedule <==> found.snapshot.Some?
    ensures found.snapshot.None? ==>
              forall k :: 0 <= k < |stream| ==> stream[k].phase == Progress || stream[k].snapshot == None
    ensures found.snapshot.Some? ==>
              exists i :: 0 <= i < |stream| && stream[i].phase != Progress
                && stream[i].snapshot == found.snapshot && stream[i].objective == found.objective
                && forall k :: 0 <= k < |stream| && stream[k].phase != Progress && stream[k].snapshot != None ==>
                     stream[i].objective <= stream[k].objective && (k > i ==> stream[i].objective < stream[k].objective)
  {
    hide Sound, Absorb, Folded;
    found := Nothing;
    NothingIsSound();
    for i := 0 to |stream|
      invariant found == Folded(stream[..i])
    {
      FoldNext(stream, i);
      found := Absorb(found, stream[i]);
    }
    assert stream[..|stream|] == stream;
    FoldKeepsBest(stream);
    BestInWords(stream, found);
    error := broken;
  }

  lemma NothingIsSound()
    ensures Sound([], Nothing) && Folded([]) == Nothing
  {
  }

  lemma FoldNext(frames: seq<Frame>, i: nat)
    requires i < |frames|
    ensures Folded(frames[..i + 1]) == Absorb(Folded(frames[..i]), frames[i])
  {
    assert frames[..i + 1][..i] == frames[..i];
  }

  function Folded(frames: seq<Frame>): Found {
    if frames == [] then Nothing else Absorb(Folded(frames[..|frames| - 1]), frames[|frames| - 1])
  }

  // ------------------------------------------------- what is said beside it

  /** What a frame may say beside its timetable, where the last word counts. */
  datatype Word = Ending(status: Status, preflightRefused: bool) | Text(message: string) | Echo(config: Option<Config>)
                | Why(core: Option<int>)

  datatype Matter = TheEnding | TheText | TheEcho | TheWhy

  /** Only a final frame says how it ended and why; any frame says the rest. */
  predicate Says(f: Frame, matter: Matter) {
    match matter
    case TheEnding => f.phase == Finished
    case TheText => f.message != ""
    case TheEcho => f.config.Some?
    case TheWhy => f.phase == Finished && f.core.Some?
  }

  function WordOf(f: Frame, matter: Matter): Word {
    match matter
    case TheEnding => Ending(f.status, f.preflightRefused)
    case TheText => Text(f.message)
    case TheEcho => Echo(f.config)
    case TheWhy => Why(f.core)
  }

  function Heard(found: Found, matter: Matter): Word {
    match matter
    case TheEnding => Ending(found.status, found.preflightRefused)
    case TheText => Text(found.message)
    case TheEcho => Echo(found.config)
    case TheWhy => Why(found.explanation)
  }

  /** The frame that has the last word on this matter. */
  ghost predicate LastWord(frames: seq<Frame>, i: int, matter: Matter) {
    0 <= i < |frames| && Says(frames[i], matter) && forall k :: i < k < |frames| ==> !Says(frames[k], matter)
  }

  lemma HeardNext(found: Found, f: Frame, matter: Matter)
    ensures Heard(Absorb(found, f), matter) == if Says(f, matter) then WordOf(f, matter) else Heard(found, matter)
  {
  }

  /** The ending, the message, the configuration and the explanation are each the last frame's that said one. */
  lemma {:induction false} LastWordStays(frames: seq<Frame>, i: int, matter: Matter)
    requires LastWord(frames, i, matter)
    ensures Heard(Folded(frames), matter) == WordOf(frames[i], matter)
  {
    hide Absorb, Says;
    var n := |frames| - 1;
    HeardNext(Folded(frames[..n]), frames[n], matter);
    if !Says(frames[n], matter) {
      LastWordStays(frames[..n], i, matter);
    }
  }

  /** And where no frame says one, none is reported. */
  lemma {:induction false} NoWordIsMadeUp(frames: seq<Frame>, matter: Matter)
    requires forall k :: 0 <= k < |frames| ==> !Says(frames[k], matter)
    ensures Heard(Folded(frames), matter) == Heard(Nothing, matter)
  {
    hide Absorb, Says;
    if frames != [] {
      var n := |frames| - 1;
      HeardNext(Folded(frames[..n]), frames[n], matter);
      NoWordIsMadeUp(frames[..n], matter);
    }
  }

  /** In words: the ending and the explanation are the last final frame's that has them, the rest any last frame's. */
  lemma ReportInWords(frames: seq<Frame>, i: nat)
    requires i < |frames|
    ensures frames[i].phase == Finished && (forall k :: i < k < |frames| ==> frames[k].phase != Finished) ==>
              && Folded(frames).status == frames[i].status
              && Folded(frames).preflightRefused == frames[i].preflightRefused
    ensures frames[i].message != "" && (forall k :: i < k < |frames| ==> frames[k].message == "") ==>
              Folded(frames).message == frames[i].message
    ensures frames[i].config != None && (forall k :: i < k < |frames| ==> frames[k].config == None) ==>
              Folded(frames).config == frames[i].config
    ensures frames[i].phase == Finished && frames[i].core != None
            && (forall k :: i < k < |frames| ==> frames[k].phase != Finished || frames[k].core == None) ==>
              Folded(frames).explanation == frames[i].core
  {
    hide Folded;
    forall matter | LastWord(frames, i, matter)
      ensures Heard(Folded(frames), matter) == WordOf(frames[i], matter)
    {
      LastWordStays(frames, i, matter);
    }
    assert LastWord(frames, i, TheEnding) ==> Heard(Folded(frames), TheEnding) == WordOf(frames[i], TheEnding);
    assert LastWord(frames, i, TheText) ==> Heard(Folded(frames), TheText) == WordOf(frames[i], TheText);
    assert LastWord(frames, i, TheEcho) ==> Heard(Folded(frames), TheEcho) == WordOf(frames[i], TheEcho);
    assert LastWord(frames, i, TheWhy) ==> Heard(Folded(frames), TheWhy) == WordOf(frames[i], TheWhy);
  }

  lemma {:induction false} FoldKeepsBest(frames: seq<Frame>)
    ensures Sound(frames, Folded(frames))
  {
    if frames == [] {
      NothingIsSound();
    } else {
      var init, last := frames[..|frames| - 1], frames[|frames| - 1];
      FoldKeepsBest(init);
      assert frames == init + [last];
      hide Sound, Absorb;
      AbsorbKeepsBest(init, Folded(init), last);
    }
  }

  /** The frame was taken when it came: it counts for the score even when it brings no timetable. */
  ghost predicate Taken(frames: seq<Frame>, i: nat)
    requires i < |frames|
  {
    frames[i].phase != Progress && !Worse(Folded(frames[..i]).hasSchedule, Folded(frames[..i]).objective, frames[i])
  }

  /** What a frame may say of the timetable it brings. */
  datatype Topic = Score | Verdict | Validation

  function SaidOf(f: Frame, topic: Topic): Option<int> {
    match topic
    case Score => f.score
    case Verdict => f.verdict
    case Validation => f.validation
  }

  function Reported(found: Found, topic: Topic): Option<int> {
    match topic
    case Score => found.score
    case Verdict => found.verdict
    case Validation => found.validation
  }

  /** The frame whose word is reported: the last one taken that had any. */
  ghost predicate SaidBy(frames: seq<Frame>, i: int, topic: Topic) {
    && 0 <= i < |frames| && Taken(frames, i) && SaidOf(frames[i], topic).Some?
    && forall k :: i < k < |frames| && Taken(frames, k) ==> SaidOf(frames[k], topic).None?
  }

  lemma {:induction false} LastTakenIsReported(frames: seq<Frame>, i: int, topic: Topic)
    requires SaidBy(frames, i, topic)
    ensures Reported(Folded(frames), topic) == SaidOf(frames[i], topic)
  {
    var n := |frames| - 1;
    var init, last := frames[..n], frames[n];
    if i < n {
      TakenEarlier(frames, n);
      assert SaidBy(init, i, topic);
      LastTakenIsReported(init, i, topic);
      assert !Taken(frames, n) || SaidOf(last, topic).None?;
    }
    hide SaidBy;
    ReportedNext(Folded(init), last, topic);
  }

  lemma ReportedNext(found: Found, f: Frame, topic: Topic)
    ensures Reported(Absorb(found, f), topic)
            == if f.phase != Progress && !Worse(found.hasSchedule, found.objective, f) && SaidOf(f, topic).Some?
               then SaidOf(f, topic) else Reported(found, topic)
  {
  }

  lemma TakenEarlier(frames: seq<Frame>, n: nat)
    requires n <= |frames|
    ensures forall k :: 0 <= k < n ==> (Taken(frames[..n], k) <==> Taken(frames, k))
  {
    forall k | 0 <= k < n ensures Taken(frames[..n], k) <==> Taken(frames, k) {
      assert frames[..n][..k] == frames[..k];
    }
  }

  /**
   * The reported score, verdict or validation is the kept timetable's own exactly when that frame brought one and no
   * later frame brought one without a timetable.
   */
  lemma AnalysisRidesAlong(frames: seq<Frame>, best: nat, topic: Topic)
    requires LastBest(frames, best, Carries)
    ensures SaidBy(frames, best, topic) <==>
              SaidOf(frames[best], topic).Some?
              && forall k :: best < k < |frames| && frames[k].phase != Progress && frames[k].snapshot.None? ==>
                   SaidOf(frames[k], topic).None?
  {
    BestIsTaken(frames, best);
    forall k | best < k < |frames| && frames[k].phase != Progress
      ensures Taken(frames, k) <==> frames[k].snapshot.None?
    {
      LaterIsWorse(frames, best, k);
    }
  }

  /** In words, of the score: a kept timetable's own is reported unless a later frame brings one and no timetable. */
  lemma ScoreInWords(frames: seq<Frame>, best: nat)
    requires best < |frames| && frames[best].phase != Progress && frames[best].snapshot != None
    requires forall k :: 0 <= k < |frames| && frames[k].phase != Progress && frames[k].snapshot != None ==>
               && frames[best].objective <= frames[k].objective
               && (k > best ==> frames[best].objective < frames[k].objective)
    requires forall k :: best < k < |frames| && frames[k].phase != Progress && frames[k].snapshot == None ==>
               frames[k].score == None && frames[k].verdict == None && frames[k].validation == None
    ensures frames[best].score != None ==> Folded(frames).score == frames[best].score
    ensures frames[best].verdict != None ==> Folded(frames).verdict == frames[best].verdict
    ensures frames[best].validation != None ==> Folded(frames).validation == frames[best].validation
  {
    hide Folded, SaidBy;
    assert LastBest(frames, best, Carries);
    forall topic | SaidOf(frames[best], topic).Some?
      ensures Reported(Folded(frames), topic) == SaidOf(frames[best], topic)
    {
      AnalysisRidesAlong(frames, best, topic);
      LastTakenIsReported(frames, best, topic);
    }
    assert SaidOf(frames[best], Score) == frames[best].score && Reported(Folded(frames), Score) == Folded(frames).score;
    assert SaidOf(frames[best], Verdict) == frames[best].verdict
           && Reported(Folded(frames), Verdict) == Folded(frames).verdict;
    assert SaidOf(frames[best], Validation) == frames[best].validation
           && Reported(Folded(frames), Validation) == Folded(frames).validation;
  }

  /** Every earlier frame is at least as bad, so the best one was taken when it came. */
  lemma BestIsTaken(frames: seq<Frame>, best: nat)
    requires LastBest(frames, best, Carries)
    ensures Taken(frames, best)
  {
    var before := frames[..best];
    FoldKeepsBest(before);
    if Folded(before).hasSchedule {
      var i :| LastBest(before, i, Carries) && before[i].objective == Folded(before).objective;
      assert frames[i] == before[i];
    }
  }

  /** After it, only a frame without a timetable is taken. */
  lemma LaterIsWorse(frames: seq<Frame>, best: nat, k: nat)
    requires LastBest(frames, best, Carries) && best < k < |frames| && frames[k].phase != Progress
    ensures Taken(frames, k) <==> frames[k].snapshot.None?
  {
    var before := frames[..k];
    FoldKeepsBest(before);
    assert before[best] == frames[best];
    var snapshot := Folded(before).snapshot;
    var i :| LastBest(before, i, Carries) && before[i].objective == Folded(before).objective;
    assert before[i] == frames[i];
  }

  /** The kept timetable brought a score, and another is reported for it. */
  ghost predicate Misreports(frames: seq<Frame>, best: int) {
    && LastBest(frames, best, Carries) && Folded(frames).snapshot == frames[best].snapshot
    && frames[best].score.Some? && Folded(frames).score != frames[best].score
  }

  /** A solve that ends by repeating a score without its timetable reports that score for another timetable. */
  lemma ScoreCanBeAnothers()
    ensures exists frames: seq<Frame>, best :: Misreports(frames, best)
  {
    var quiet := Frame(Progress, Feasible, "", None, None, 0, None, None, None, None, false);
    var good := quiet.(phase := Solution, snapshot := Some(1), objective := 3, score := Some(90));
    var tail := quiet.(phase := Finished, score := Some(10));
    var frames := [good, tail];
    assert frames[..1] == [good] && [good][..0] == [];
    assert Folded([good]) == Absorb(Nothing, good);
    assert Folded(frames) == Absorb(Folded([good]), tail);
    assert Misreports(frames, 0);
  }
}
