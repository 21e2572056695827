/**
 * The buffering around speech recognition in whisper_wrapper.cpp.  Each recognition unit
 * keeps the last 30 seconds of its audio and a count of the samples not yet recognised;
 * the worker drains the shared work queue, applies every workload to its unit, runs each
 * distinct unit once, and hands non-quiet transcripts to the unit's callback, which is
 * acquired on the unit's first run only.  Samples are opaque values: the model never does
 * arithmetic on them.
 */
module Whisper {
  import opened Options

  type Sample = real

  /** WHISPER_SAMPLE_RATE, defined in whisper.h. */
  const SampleRate: nat := 16000

  /** `n_samples_30s` */
  const Samples30s: nat := SampleRate * 30

  /** `n_samples_overlap_desired`: `WHISPER_SAMPLE_RATE * 0.2` truncated to an int. */
  const OverlapDesired: nat := 3200

  /** The transcripts the model produces for silence; they are never reported. */
  predicate SuppressQuietInferences(text: string)
  {
    text == " you" || text == " [BLANK_AUDIO]" || text == " [ Silence ]"
  }

  function Zeros(n: nat): (z: seq<Sample>)
    ensures |z| == n && forall i :: 0 <= i < n ==> z[i] == 0.0
  {
    seq(n, _ => 0.0)
  }

  /** Append the new samples, then erase as many from the front. */
  function SlideWindow(window: seq<Sample>, pcm: seq<Sample>): (r: seq<Sample>)
    ensures |r| == |window|
  {
    (window + pcm)[|pcm|..]
  }

  /**
   * The window keeps the newest |window| samples: a chunk at least as long as the window
   * replaces it with the chunk's tail (the older part of the chunk is dropped); a shorter
   * chunk shifts the old samples left and lands at the end.
   */
  lemma SlideWindowKeepsNewest(window: seq<Sample>, pcm: seq<Sample>)
    ensures |pcm| >= |window| ==> SlideWindow(window, pcm) == pcm[|pcm| - |window|..]
    ensures |pcm| < |window| ==> SlideWindow(window, pcm) == window[|pcm|..] + pcm
  {
    var r := SlideWindow(window, pcm);
    if |pcm| >= |window| {
      assert forall i :: 0 <= i < |r| ==> r[i] == pcm[|pcm| - |window| + i];
    } else {
      assert forall i :: 0 <= i < |r| ==> r[i] == (window[|pcm|..] + pcm)[i];
    }
  }

  /** Sliding by two chunks in turn is sliding by the two together. */
  lemma SlideWindowCompose(window: seq<Sample>, a: seq<Sample>, b: seq<Sample>)
    ensures SlideWindow(SlideWindow(window, a), b) == SlideWindow(window, a + b)
  {
    assert (window + a)[|a|..] + b == (window + a + b)[|a|..];
    assert window + (a + b) == window + a + b;
  }

  function Concat(chunks: seq<seq<Sample>>): seq<Sample>
  {
    if chunks == [] then [] else Concat(chunks[..|chunks| - 1]) + chunks[|chunks| - 1]
  }

  function SlideAll(window: seq<Sample>, chunks: seq<seq<Sample>>): (r: seq<Sample>)
    ensures |r| == |window|
  {
    if chunks == [] then window else SlideWindow(SlideAll(window, chunks[..|chunks| - 1]), chunks[|chunks| - 1])
  }

  /** Any sequence of workloads leaves the window holding the newest samples of all of them. */
  lemma {:induction false} SlideAllIsSlideOfConcat(window: seq<Sample>, chunks: seq<seq<Sample>>)
    ensures SlideAll(window, chunks) == SlideWindow(window, Concat(chunks))
  {
    if chunks == [] {
      assert (window + [])[0..] == window;
    } else {
      var front := chunks[..|chunks| - 1];
      SlideAllIsSlideOfConcat(window, front);
      SlideWindowCompose(window, Concat(front), chunks[|chunks| - 1]);
    }
  }

  /** `std::min(n_samples_30s, unit->unprocessedSamples + n_samples_overlap_desired)` */
  function CopyLength(unprocessed: nat): (n: nat)
    ensures n <= Samples30s && n <= unprocessed + OverlapDesired
    ensures n == Samples30s || n == unprocessed + OverlapDesired
  {
    if unprocessed + OverlapDesired < Samples30s then unprocessed + OverlapDesired else Samples30s
  }

  /**
   * The buffer given to recognition: the newest `count` samples of the window at its start
   * and silence after them, 30 seconds in all.
   */
  function InferenceBuffer(pcm: seq<Sample>, count: nat): (r: seq<Sample>)
    requires count <= |pcm| && count <= Samples30s
    ensures |r| == Samples30s
    ensures forall i :: 0 <= i < count ==> r[i] == pcm[|pcm| - count + i]
    ensures forall i :: count <= i < Samples30s ==> r[i] == 0.0
  {
    pcm[|pcm| - count..] + Zeros(Samples30s - count)
  }

  /** `inference_buffer(n_samples_30s, 0.0f)` followed by the `std::copy`. */
  method CopyIntoInferenceBuffer(pcm: seq<Sample>, count: nat) returns (buffer: seq<Sample>)
    requires count <= |pcm| && count <= Samples30s
    ensures buffer == InferenceBuffer(pcm, count)
  {
    var a := new Sample[Samples30s](_ => 0.0);
    var k := 0;
    while k < count
      invariant 0 <= k <= count
      invariant forall i :: 0 <= i < k ==> a[i] == pcm[|pcm| - count + i]
      invariant forall i :: k <= i < Samples30s ==> a[i] == 0.0
    {
      a[k] := pcm[|pcm| - count + k];
      k := k + 1;
    }
    buffer := a[..];
    assert forall i :: 0 <= i < Samples30s ==> buffer[i] == InferenceBuffer(pcm, count)[i];
  }

  /** The state of one unit: the fields of `ASRUnit` the worker reads and writes. */
  datatype UnitState = UnitState(pcmf32: seq<Sample>, unprocessedSamples: nat, needsAcquisition: bool,
                                 acquisitions: nat, text: string)

  /**
   * The window always holds 30 seconds of samples, and the callback has been acquired once
   * exactly when it no longer needs acquisition; so it is never acquired twice.
   */
  predicate Consistent(s: UnitState)
  {
    |s.pcmf32| == Samples30s && s.acquisitions == if s.needsAcquisition then 0 else 1
  }

  /** A new unit: 30 seconds of silence, nothing unprocessed, callback not yet acquired. */
  function Fresh(): (s: UnitState)
    ensures Consistent(s)
  {
    UnitState(Zeros(Samples30s), 0, true, 0, "")
  }

  /** Lines 180-184: the unit after one workload of samples `pcm`. */
  function Step(s: UnitState, pcm: seq<Sample>): UnitState
  {
    s.(pcmf32 := SlideWindow(s.pcmf32, pcm), unprocessedSamples := s.unprocessedSamples + |pcm|)
  }

  /** A unit after the workloads `chunks` were applied to it, in order. */
  function Applied(s: UnitState, chunks: seq<seq<Sample>>): UnitState
  {
    s.(pcmf32 := SlideAll(s.pcmf32, chunks), unprocessedSamples := s.unprocessedSamples + |Concat(chunks)|)
  }

  /** Lines 206-208: the first run acquires the callback, later runs do not. */
  function Acquired(s: UnitState): UnitState
  {
    if s.needsAcquisition then s.(needsAcquisition := false, acquisitions := s.acquisitions + 1) else s
  }

  /**
   * The samples recognition sees: the inference buffer after the high-pass filter that
   * `vad_simple` applies in place (its 1000 ms tail is always shorter than the buffer).
   */
  function Audio(s: UnitState, highPass: seq<Sample> -> seq<Sample>): seq<Sample>
    requires |s.pcmf32| == Samples30s
  {
    highPass(InferenceBuffer(s.pcmf32, CopyLength(s.unprocessedSamples)))
  }

  /** `runWhisperOnUnit`: the counter is reset, and speech replaces the stored transcript. */
  function Infer(s: UnitState, highPass: seq<Sample> -> seq<Sample>, isSpeech: seq<Sample> -> bool,
                 transcribe: seq<Sample> -> string): UnitState
    requires |s.pcmf32| == Samples30s
  {
    var audio := Audio(s, highPass);
    s.(unprocessedSamples := 0, text := if isSpeech(audio) then transcribe(audio) else s.text)
  }

  /** What `runWhisperOnUnit` hands to the callback: speech that is not a quiet inference. */
  function Report(s: UnitState, highPass: seq<Sample> -> seq<Sample>, isSpeech: seq<Sample> -> bool,
                  transcribe: seq<Sample> -> string): Option<string>
    requires |s.pcmf32| == Samples30s
  {
    var audio := Audio(s, highPass);
    if isSpeech(audio) && !SuppressQuietInferences(transcribe(audio)) then Some(transcribe(audio)) else None
  }

  lemma AppliedStep(s: UnitState, chunks: seq<seq<Sample>>, pcm: seq<Sample>)
    ensures Applied(s, chunks + [pcm]) == Step(Applied(s, chunks), pcm)
  {
    SlideAllStep(s.pcmf32, chunks, pcm);
  }

  /** Applying workloads keeps the window 30 seconds long and leaves the callback alone. */
  lemma AppliedKeepsConsistent(s: UnitState, chunks: seq<seq<Sample>>)
    requires Consistent(s)
    ensures Consistent(Applied(s, chunks))
    ensures Applied(s, chunks).needsAcquisition == s.needsAcquisition
  {
  }

  /**
   * A run leaves a consistent unit consistent, with its callback acquired exactly once
   * however many runs it had, no samples pending and the window as it was.
   */
  lemma RunKeepsConsistent(s: UnitState, highPass: seq<Sample> -> seq<Sample>, isSpeech: seq<Sample> -> bool,
                           transcribe: seq<Sample> -> string)
    requires Consistent(s)
    ensures var r := Infer(Acquired(s), highPass, isSpeech, transcribe);
      Consistent(r) && !r.needsAcquisition && r.acquisitions == 1 &&
      r.unprocessedSamples == 0 && r.pcmf32 == s.pcmf32
  {
  }

  /**
   * The callback gets a transcript exactly when speech is detected and its transcript is
   * not a quiet inference, and then it gets the transcript the unit stores.
   */
  lemma ReportIsSpeech(s: UnitState, highPass: seq<Sample> -> seq<Sample>, isSpeech: seq<Sample> -> bool,
                       transcribe: seq<Sample> -> string)
    requires |s.pcmf32| == Samples30s
    ensures var r := Report(s, highPass, isSpeech, transcribe);
      (r.Some? <==> isSpeech(Audio(s, highPass)) && !SuppressQuietInferences(transcribe(Audio(s, highPass)))) &&
      (r.Some? ==> r.value == Infer(s, highPass, isSpeech, transcribe).text)
  {
  }

  /**
   * A unit's window after any number of workloads since its creation is the newest
   * 30 seconds of silence followed by all the audio it was sent.
   */
  lemma WindowIsNewestAudio(chunks: seq<seq<Sample>>)
    ensures Applied(Fresh(), chunks).pcmf32 == (Zeros(Samples30s) + Concat(chunks))[|Concat(chunks)|..]
    ensures Applied(Fresh(), chunks).unprocessedSamples == |Concat(chunks)|
  {
    SlideAllIsSlideOfConcat(Zeros(Samples30s), chunks);
  }

  /**
   * One `ASRUnit`: its 30-second window, the samples received since it was last run, the
   * last transcript, and whether its callback still has to be acquired.  `acquisitions`
   * (ghost) counts the acquisitions made so far.
   */
  class AsrUnit {
    const id: string
    var pcmf32: seq<Sample>
    var unprocessedSamples: nat
    var needsAcquisition: bool
    var text: string
    ghost var acquisitions: nat

    ghost function State(): UnitState
      reads this
    {
      UnitState(pcmf32, unprocessedSamples, needsAcquisition, acquisitions, text)
    }

    ghost predicate Valid()
      reads this
    {
      Consistent(State())
    }

    constructor (id: string)
      ensures Valid() && this.id == id && State() == Fresh()
    {
      this.id := id;
      pcmf32 := Zeros(Samples30s);
      unprocessedSamples := 0;
      needsAcquisition := true;
      text := "";
      acquisitions := 0;
    }

    /** Lines 180-184: count the new samples and keep the last 30 seconds of audio. */
    method Receive(pcm: seq<Sample>)
      modifies this
      ensures State() == Step(old(State()), pcm)
    {
      unprocessedSamples := unprocessedSamples + |pcm|;
      // insert at the end, then erase as many from the front
      pcmf32 := pcmf32 + pcm;
      pcmf32 := pcmf32[|pcm|..];
    }

    /** Lines 206-208 */
    method Acquire()
      modifies this
      ensures State() == Acquired(old(State()))
    {
      if needsAcquisition {
        needsAcquisition := false;
        acquisitions := acquisitions + 1;
      }
    }
  }

  /**
   * `runWhisperOnUnit`; `highPass`, `isSpeech` and `transcribe` stand for the filter and the
   * decision of `vad_simple` and for `whisper_full` with its segment texts joined.
   */
  method RunWhisperOnUnit(unit: AsrUnit, highPass: seq<Sample> -> seq<Sample>, isSpeech: seq<Sample> -> bool,
                          transcribe: seq<Sample> -> string) returns (reported: Option<string>)
    requires unit.Valid()
    modifies unit
    ensures unit.State() == Infer(old(unit.State()), highPass, isSpeech, transcribe)
    ensures reported == Report(old(unit.State()), highPass, isSpeech, transcribe)
  {
    var count := CopyLength(unit.unprocessedSamples);
    unit.unprocessedSamples := 0;
    var buffer := CopyIntoInferenceBuffer(unit.pcmf32, count);
    buffer := highPass(buffer);
    if !isSpeech(buffer) {
      return None;
    }
    unit.text := transcribe(buffer);
    if SuppressQuietInferences(unit.text) {
      return None;
    }
    return Some(unit.text);
  }

  /** The samples of one `process` call, queued for their unit. */
  datatype Workload = Workload(buffer: seq<Sample>, unit: AsrUnit)

  function UnitsOf(workloads: seq<Workload>): set<AsrUnit>
  {
    set i | 0 <= i < |workloads| :: workloads[i].unit
  }

  /** The chunks queued for one unit, in queue order. */
  function Buffers(workloads: seq<Workload>, unit: AsrUnit): seq<seq<Sample>>
  {
    if workloads == [] then []
    else
      var last := workloads[|workloads| - 1];
      Buffers(workloads[..|workloads| - 1], unit) + if last.unit == unit then [last.buffer] else []
  }

  predicate HasId(units: seq<AsrUnit>, id: string)
  {
    exists k :: 0 <= k < |units| && units[k].id == id
  }

  /** The unit list built by the dedupe loop: a unit is added unless one with its id is there. */
  function DedupeById(workloads: seq<Workload>): seq<AsrUnit>
  {
    if workloads == [] then []
    else
      var units := DedupeById(workloads[..|workloads| - 1]);
      var unit := workloads[|workloads| - 1].unit;
      if HasId(units, unit.id) then units else units + [unit]
  }

  predicate DistinctIds(units: seq<AsrUnit>)
  {
    forall k, k' :: 0 <= k < k' < |units| ==> units[k].id != units[k'].id
  }

  /** Workload i carries the first appearance of its unit's id. */
  predicate FirstWithId(workloads: seq<Workload>, i: nat)
    requires i < |workloads|
  {
    forall j :: 0 <= j < i ==> workloads[j].unit.id != workloads[i].unit.id
  }

  /** Reference definition: the units of the first appearances, in queue order. */
  function FirstAppearances(workloads: seq<Workload>): seq<AsrUnit>
  {
    if workloads == [] then []
    else
      var n := |workloads| - 1;
      FirstAppearances(workloads[..n]) + if FirstWithId(workloads, n) then [workloads[n].unit] else []
  }

  /** The list names exactly the ids that occur in the workloads. */
  lemma {:induction false} DedupeIds(workloads: seq<Workload>, id: string)
    ensures HasId(DedupeById(workloads), id) <==> exists i :: 0 <= i < |workloads| && workloads[i].unit.id == id
  {
    if workloads != [] {
      var n := |workloads| - 1;
      var front := workloads[..n];
      DedupeIds(front, id);
      var units := DedupeById(front);
      var unit := workloads[n].unit;
      if !HasId(units, unit.id) && unit.id == id {
        assert (units + [unit])[|units|].id == id;
      }
      if HasId(units, id) {
        var k :| 0 <= k < |units| && units[k].id == id;
        assert DedupeById(workloads)[k].id == id;
      }
      assert forall i :: 0 <= i < n ==> front[i] == workloads[i];
    }
  }

  /** No id appears twice in the list. */
  lemma {:induction false} DedupeDistinct(workloads: seq<Workload>)
    ensures DistinctIds(DedupeById(workloads))
  {
    if workloads != [] {
      var front := workloads[..|workloads| - 1];
      DedupeDistinct(front);
      var units := DedupeById(front);
      var unit := workloads[|workloads| - 1].unit;
      if !HasId(units, unit.id) {
        var r := units + [unit];
        assert DedupeById(workloads) == r;
        forall k, k' | 0 <= k < k' < |r|
          ensures r[k].id != r[k'].id
        {
          assert r[k] == units[k];
          if k' < |units| {
            assert r[k'] == units[k'];
          }
        }
      } else {
        assert DedupeById(workloads) == units;
      }
    }
  }

  /** The dedupe loop keeps each id's first appearance, in the order of the queue. */
  lemma {:induction false} DedupeIsFirstAppearances(workloads: seq<Workload>)
    ensures DedupeById(workloads) == FirstAppearances(workloads)
  {
    if workloads != [] {
      var n := |workloads| - 1;
      var front := workloads[..n];
      DedupeIsFirstAppearances(front);
      DedupeIds(front, workloads[n].unit.id);
      assert forall i :: 0 <= i < n ==> front[i] == workloads[i];
      assert forall i :: 0 <= i < n ==> FirstWithId(front, i) == FirstWithId(workloads, i);
      FirstAppearancesPrefix(workloads);
    }
  }

  lemma FirstAppearancesPrefix(workloads: seq<Workload>)
    requires workloads != []
    ensures FirstAppearances(workloads) ==
      FirstAppearances(workloads[..|workloads| - 1]) +
      if FirstWithId(workloads, |workloads| - 1) then [workloads[|workloads| - 1].unit] else []
  {
  }

  /** Every unit in the list comes from a workload. */
  lemma {:induction false} DedupeMembers(workloads: seq<Workload>)
    ensures forall k :: 0 <= k < |DedupeById(workloads)| ==> DedupeById(workloads)[k] in UnitsOf(workloads)
  {
    if workloads != [] {
      var front := workloads[..|workloads| - 1];
      DedupeMembers(front);
      assert forall i :: 0 <= i < |front| ==> front[i] == workloads[i];
      assert workloads[|workloads| - 1].unit in UnitsOf(workloads);
    }
  }

  lemma BuffersStep(workloads: seq<Workload>, i: nat, unit: AsrUnit)
    requires i < |workloads|
    ensures Buffers(workloads[..i + 1], unit) ==
      Buffers(workloads[..i], unit) + if workloads[i].unit == unit then [workloads[i].buffer] else []
  {
    assert workloads[..i + 1][..i] == workloads[..i];
  }

  lemma SlideAllStep(window: seq<Sample>, chunks: seq<seq<Sample>>, chunk: seq<Sample>)
    ensures SlideAll(window, chunks + [chunk]) == SlideWindow(SlideAll(window, chunks), chunk)
    ensures Concat(chunks + [chunk]) == Concat(chunks) + chunk
  {
    assert (chunks + [chunk])[..|chunks|] == chunks;
  }

  lemma DedupeStep(workloads: seq<Workload>, i: nat)
    requires i < |workloads|
    ensures DedupeById(workloads[..i + 1]) ==
      var units := DedupeById(workloads[..i]);
      if HasId(units, workloads[i].unit.id) then units else units + [workloads[i].unit]
  {
    assert workloads[..i + 1][..i] == workloads[..i];
  }

  /** The inner loop of the dedupe: is a unit with this id already in the list? */
  method FindId(units: seq<AsrUnit>, id: string) returns (found: bool)
    ensures found == HasId(units, id)
  {
    found := false;
    var j := 0;
    while j < |units| && !found
      invariant 0 <= j <= |units|
      invariant found <==> exists k :: 0 <= k < j && units[k].id == id
    {
      if units[j].id == id {
        found := true;
      }
      j := j + 1;
    }
  }

  /** Lines 191-201: a unit joins the list unless one with its id is already there. */
  method AddIfNew(units: seq<AsrUnit>, unit: AsrUnit) returns (r: seq<AsrUnit>)
    ensures r == if HasId(units, unit.id) then units else units + [unit]
  {
    var found := FindId(units, unit.id);
    r := units;
    if !found {
      r := r + [unit];
    }
  }

  /** `unit` is in the state `before` reaches once `chunks` are applied to it. */
  ghost predicate AppliedSince(unit: AsrUnit, before: UnitState, chunks: seq<seq<Sample>>)
    reads unit
  {
    unit.State() == Applied(before, chunks)
  }

  /**
   * The first loop of `runWhisper`: every workload, in queue order, adds its length to its
   * unit's counter and slides its unit's window; the unit list collects each id once.
   */
  method ApplyWorkloads(workloads: seq<Workload>) returns (units: seq<AsrUnit>)
    modifies UnitsOf(workloads)
    ensures units == DedupeById(workloads)
    ensures forall u :: u in UnitsOf(workloads) ==> AppliedSince(u, old(u.State()), Buffers(workloads, u))
  {
    units := [];
    var i := 0;
    while i < |workloads|
      invariant 0 <= i <= |workloads|
      invariant units == DedupeById(workloads[..i])
      invariant forall u :: u in UnitsOf(workloads) ==> AppliedSince(u, old(u.State()), Buffers(workloads[..i], u))
    {
      var unit := workloads[i].unit;
      var pcm := workloads[i].buffer;
      assert unit in UnitsOf(workloads);
      AppliedStep(old(unit.State()), Buffers(workloads[..i], unit), pcm);
      BuffersStep(workloads, i, unit);
      forall u | u in UnitsOf(workloads) && u != unit
        ensures AppliedSince(u, old(u.State()), Buffers(workloads[..i + 1], u))
      {
        BuffersStep(workloads, i, u);
        assert Buffers(workloads[..i + 1], u) == Buffers(workloads[..i], u);
      }
      unit.Receive(pcm);
      DedupeStep(workloads, i);
      units := AddIfNew(units, unit);
      i := i + 1;
    }
    assert workloads[..|workloads|] == workloads;
  }

  /**
   * After a run (acquire, then `runWhisperOnUnit`) `unit` is in the state the run takes
   * `before` to, and `report` is what it handed to the callback.
   */
  ghost predicate RanFrom(unit: AsrUnit, before: UnitState, report: Option<string>,
                          highPass: seq<Sample> -> seq<Sample>, isSpeech: seq<Sample> -> bool,
                          transcribe: seq<Sample> -> string)
    reads unit
  {
    && |before.pcmf32| == Samples30s
    && unit.State() == Infer(Acquired(before), highPass, isSpeech, transcribe)
    && report == Report(before, highPass, isSpeech, transcribe)
  }

  ghost predicate Holds(unit: AsrUnit, state: UnitState)
    reads unit
  {
    unit.State() == state
  }

  /** The second loop of `runWhisper`: each listed unit is acquired if need be, then run. */
  method RunUnits(units: seq<AsrUnit>, highPass: seq<Sample> -> seq<Sample>, isSpeech: seq<Sample> -> bool,
                  transcribe: seq<Sample> -> string) returns (reports: seq<Option<string>>)
    requires DistinctIds(units)
    requires forall k :: 0 <= k < |units| ==> units[k].Valid()
    modifies set k | 0 <= k < |units| :: units[k]
    ensures |reports| == |units|
    ensures forall k :: 0 <= k < |units| ==>
      RanFrom(units[k], old(units[k].State()), reports[k], highPass, isSpeech, transcribe)
  {
    reports := [];
    var i := 0;
    while i < |units|
      invariant 0 <= i <= |units| && |reports| == i
      invariant forall k :: 0 <= k < i ==>
        RanFrom(units[k], old(units[k].State()), reports[k], highPass, isSpeech, transcribe)
      invariant forall k :: i <= k < |units| ==> Holds(units[k], old(units[k].State()))
    {
      var unit := units[i];
      assert forall k :: 0 <= k < |units| && k != i ==> units[k] != unit;
      unit.Acquire();
      var report := RunWhisperOnUnit(unit, highPass, isSpeech, transcribe);
      reports := reports + [report];
      i := i + 1;
    }
  }

  /** The shared work queue of `ASRUnit` and one pass of the worker loop over it. */
  class Worker {
    var workQueue: seq<Workload>

    constructor ()
      ensures workQueue == []
    {
      workQueue := [];
    }

    /** `process`, after the samples are converted: the workload joins the back of the queue. */
    method Process(unit: AsrUnit, pcm: seq<Sample>)
      modifies this
      ensures workQueue == old(workQueue) + [Workload(pcm, unit)]
    {
      workQueue := workQueue + [Workload(pcm, unit)];
    }

    /** Lines 165-170: take every queued workload, front first, leaving the queue empty. */
    method Drain() returns (workloads: seq<Workload>)
      modifies this
      ensures workloads == old(workQueue) && workQueue == []
    {
      workloads := [];
      while workQueue != []
        invariant workloads + workQueue == old(workQueue)
      {
        workloads := workloads + [workQueue[0]];
        workQueue := workQueue[1..];
      }
    }

    /**
     * One iteration of `runWhisper`: every queued workload reaches its unit, then each id's
     * first unit runs once on its updated window.  A second unit object sharing an id
     * receives its samples but does not run in this pass.
     */
    method RunOnce(highPass: seq<Sample> -> seq<Sample>, isSpeech: seq<Sample> -> bool,
                   transcribe: seq<Sample> -> string) returns (units: seq<AsrUnit>, reports: seq<Option<string>>)
      requires forall u :: u in UnitsOf(workQueue) ==> u.Valid()
      modifies this, UnitsOf(workQueue)
      ensures workQueue == []
      ensures units == FirstAppearances(old(workQueue)) && DistinctIds(units) && |reports| == |units|
      ensures forall k :: 0 <= k < |units| ==>
        && units[k] in UnitsOf(old(workQueue))
        && RanFrom(units[k], Applied(old(units[k].State()), Buffers(old(workQueue), units[k])), reports[k],
                   highPass, isSpeech, transcribe)
      ensures forall u :: u in UnitsOf(old(workQueue)) && u !in units ==>
        AppliedSince(u, old(u.State()), Buffers(old(workQueue), u))
      ensures forall u :: u in UnitsOf(old(workQueue)) ==> u.Valid()
    {
      var workloads := Drain();
      units := ApplyWorkloads(workloads);
      label applied:
      DedupeDistinct(workloads);
      DedupeMembers(workloads);
      DedupeIsFirstAppearances(workloads);
      forall u | u in UnitsOf(workloads)
        ensures u.Valid()
      {
        AppliedKeepsConsistent(old(u.State()), Buffers(workloads, u));
      }
      reports := RunUnits(units, highPass, isSpeech, transcribe);
      forall u | u in UnitsOf(workloads)
        ensures u.Valid()
      {
        if u in units {
          RunKeepsConsistent(old@applied(u.State()), highPass, isSpeech, transcribe);
        }
      }
    }
  }
}
