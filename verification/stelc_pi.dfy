/** The Controller and Recorder threads of STELC_pi.py, and the Scheduler and
    Uploader stubs beside them.  Each object's state is the set of its
    threading.Event attributes that are set, plus a few plain fields; one
    iteration of a `run` loop is one `Tick`.  Threads, `sleep` and `wait`
    are not modelled; the recorder stream's "is active" answer and the wall
    clock are inputs. */
module Pi {
  import opened PyRuntime
  import Display

  /** Take length used when none is given (STELC_pi.py:20). */
  const RECORD_SECONDS_DEFAULT := 10800

  /** The threading.Event attributes `_stop_`, `_clear_`, ... of the four
      thread classes, one constructor per attribute name. */
  datatype Event =
    | Stop | Clear | Cancel | Recording | Converting | Uploading
    | StartRecording | PauseRecording | StopRecording

  /** The events each class creates in its `__init__`. */
  const ControllerEvents: set<Event> := {Stop, Clear, Cancel, Recording, Converting, Uploading}
  const RecorderEvents: set<Event> := {Stop, Clear, StartRecording, Recording, PauseRecording, StopRecording}
  const StubEvents: set<Event> := {Stop, Clear}

  /** The Controller's per-stage events. */
  const Stages: set<Event> := {Recording, Converting, Uploading}

  /** The order in which each `run` loop tests its events: the first one
      that is set picks the single handler of the tick. */
  const ControllerPriority: seq<Event> := [Clear, Cancel, Recording, Converting, Uploading]
  const RecorderPriority: seq<Event> := [Clear, StopRecording, PauseRecording, StartRecording]
  const StubPriority: seq<Event> := [Clear]

  /** The event whose handler an if/elif chain over `order` runs, if any:
      always one of the tested events, and one that is set. */
  function FirstRaised(raised: set<Event>, order: seq<Event>): (r: Option<Event>)
    ensures r.Some? ==> r.value in raised && r.value in order
  {
    if order == [] then None
    else if order[0] in raised then Some(order[0])
    else FirstRaised(raised, order[1..])
  }

  /** No handler runs exactly when none of the tested events is set. */
  lemma {:induction false} FirstRaisedNone(raised: set<Event>, order: seq<Event>)
    ensures FirstRaised(raised, order) == None <==> forall j :: 0 <= j < |order| ==> order[j] !in raised
  {
    if order != [] {
      FirstRaisedNone(raised, order[1..]);
      if order[0] !in raised {
        assert forall j :: 1 <= j < |order| ==> order[j] == order[1..][j - 1];
      }
    }
  }

  /** The handler of event `order[k]` runs exactly when that event is set
      and no event tested before it is. */
  lemma {:induction false} FirstRaisedPriority(raised: set<Event>, order: seq<Event>, k: nat)
    requires k < |order|
    requires forall i, j :: 0 <= i < j < |order| ==> order[i] != order[j]
    ensures FirstRaised(raised, order) == Some(order[k])
        <==> order[k] in raised && forall j :: 0 <= j < k ==> order[j] !in raised
  {
    if order[0] in raised {
      if k > 0 {
        assert order[0] != order[k];
      }
    } else if k > 0 {
      var rest := order[1..];
      assert forall j :: 0 <= j < |rest| ==> rest[j] == order[j + 1];
      FirstRaisedPriority(raised, rest, k - 1);
    } else {
      assert order[0] !in order[1..];
    }
  }

  /** The controller's `run` tests clear, cancel, recording, converting and
      uploading in that order. */
  lemma ControllerDispatch(raised: set<Event>)
    ensures FirstRaised(raised, ControllerPriority) ==
      if Clear in raised then Some(Clear)
      else if Event.Cancel in raised then Some(Event.Cancel)
      else if Recording in raised then Some(Recording)
      else if Converting in raised then Some(Converting)
      else if Uploading in raised then Some(Uploading)
      else None
  {
    var p := ControllerPriority;
    assert p[1..] == [Event.Cancel, Recording, Converting, Uploading];
    assert p[1..][1..] == [Recording, Converting, Uploading];
    assert p[1..][1..][1..] == [Converting, Uploading];
    assert p[1..][1..][1..][1..] == [Uploading];
    assert p[1..][1..][1..][1..][1..] == [];
    assert FirstRaised(raised, [Uploading]) == if Uploading in raised then Some(Uploading) else None;
    assert FirstRaised(raised, [Converting, Uploading])
        == if Converting in raised then Some(Converting) else FirstRaised(raised, [Uploading]);
    assert FirstRaised(raised, [Recording, Converting, Uploading])
        == if Recording in raised then Some(Recording) else FirstRaised(raised, [Converting, Uploading]);
    assert FirstRaised(raised, p[1..])
        == if Event.Cancel in raised then Some(Event.Cancel) else FirstRaised(raised, [Recording, Converting, Uploading]);
  }

  /** The recorder's `run` tests clear, stopRecording, pauseRecording and
      startRecording in that order. */
  lemma RecorderDispatch(raised: set<Event>)
    ensures FirstRaised(raised, RecorderPriority) ==
      if Clear in raised then Some(Clear)
      else if Event.StopRecording in raised then Some(Event.StopRecording)
      else if Event.PauseRecording in raised then Some(Event.PauseRecording)
      else if Event.StartRecording in raised then Some(Event.StartRecording)
      else None
  {
    var p := RecorderPriority;
    assert p[1..] == [Event.StopRecording, Event.PauseRecording, Event.StartRecording];
    assert p[1..][1..] == [Event.PauseRecording, Event.StartRecording];
    assert p[1..][1..][1..] == [Event.StartRecording];
    assert p[1..][1..][1..][1..] == [];
    assert FirstRaised(raised, [Event.StartRecording])
        == if Event.StartRecording in raised then Some(Event.StartRecording) else None;
    assert FirstRaised(raised, [Event.PauseRecording, Event.StartRecording])
        == if Event.PauseRecording in raised then Some(Event.PauseRecording)
           else FirstRaised(raised, [Event.StartRecording]);
    assert FirstRaised(raised, p[1..])
        == if Event.StopRecording in raised then Some(Event.StopRecording)
           else FirstRaised(raised, [Event.PauseRecording, Event.StartRecording]);
  }

  /** What a `run` loop leaves behind: the events set before each tick and
      the handler that tick ran, always the first set event of `order`;
      once a tick finds no handler to run, every later tick finds the very
      same events, so the loop only spins until `_stop_`. */
  ghost predicate IsTrace(before: seq<set<Event>>, handlers: seq<Option<Event>>, order: seq<Event>)
  {
    |before| == |handlers|
    && (forall i :: 0 <= i < |before| ==> handlers[i] == FirstRaised(before[i], order))
    && (forall i, j :: 0 <= i < j < |before| && handlers[i] == None ==> before[j] == before[i])
  }

  /** A tick that ran the first set handler, after a tick that ran none
      left the events alone, extends the trace. */
  lemma TraceExtend(before: seq<set<Event>>, handlers: seq<Option<Event>>, order: seq<Event>,
                    b: set<Event>, h: Option<Event>)
    requires IsTrace(before, handlers, order) && h == FirstRaised(b, order)
    requires |before| > 0 && handlers[|before| - 1] == None ==> b == before[|before| - 1]
    ensures IsTrace(before + [b], handlers + [h], order)
  {
    var n := |before|;
    forall i | 0 <= i < n && handlers[i] == None
      ensures b == before[i]
    {
      if i < n - 1 {
        assert before[n - 1] == before[i];
      }
    }
  }

  /** `clearAll(but)`: walk over the object's events and clear every one
      whose name is not `but` (STELC_pi.py:64-68, and likewise in every
      thread class). */
  method ClearAllBut(owned: set<Event>, raised: set<Event>, but: Option<Event>) returns (kept: set<Event>)
    requires raised <= owned
    ensures forall e :: e in kept <==> e in raised && but == Some(e)
  {
    kept := raised;
    var todo := owned;
    while todo != {}
      invariant todo <= owned
      invariant forall e :: e in kept <==> e in raised && (e in todo || but == Some(e))
      decreases todo
    {
      var a :| a in todo;
      if but != Some(a) {
        kept := kept - {a};
      }
      todo := todo - {a};
    }
  }

  /** A wall-clock reading as `time.localtime()` gives it, restricted to
      four-digit years. */
  datatype LocalTime = LocalTime(year: int, month: int, day: int, hour: int, minute: int)

  predicate ValidClock(t: LocalTime) {
    1000 <= t.year <= 9999 && 1 <= t.month <= 12 && 1 <= t.day <= 31 &&
    0 <= t.hour <= 23 && 0 <= t.minute <= 59
  }

  type Clock = t: LocalTime | ValidClock(t) witness LocalTime(2000, 1, 1, 0, 0)

  /** `time.strftime('STELC_%Y%m%d-%H%M.wav', now)` (STELC_pi.py:253). */
  function StampedName(t: Clock): string
  {
    "STELC_" + FixedDigits(t.year, 4) + FixedDigits(t.month, 2) + FixedDigits(t.day, 2)
    + "-" + FixedDigits(t.hour, 2) + FixedDigits(t.minute, 2) + ".wav"
  }

  /** Reads a `STELC_YYYYmmdd-HHMM.wav` name back into its time stamp. */
  function ParseStamp(name: string): Option<Clock>
  {
    if |name| == 23 && name[..6] == "STELC_" && name[14] == '-' && name[19..] == ".wav"
       && AllDigits(name[6..10]) && AllDigits(name[10..12]) && AllDigits(name[12..14])
       && AllDigits(name[15..17]) && AllDigits(name[17..19])
    then
      var t := LocalTime(DigitsValue(name[6..10]), DigitsValue(name[10..12]), DigitsValue(name[12..14]),
                         DigitsValue(name[15..17]), DigitsValue(name[17..19]));
      if ValidClock(t) then var c: Clock := t; Some(c) else None
    else None
  }

  /** A stamped file name is 23 characters long and gives back the time it
      was stamped with, so names from different minutes differ. */
  lemma StampRoundTrip(t: Clock)
    ensures |StampedName(t)| == 23
    ensures ParseStamp(StampedName(t)) == Some(t)
  {
    var n := StampedName(t);
    var y, mo, d, h, mi := FixedDigits(t.year, 4), FixedDigits(t.month, 2), FixedDigits(t.day, 2),
                           FixedDigits(t.hour, 2), FixedDigits(t.minute, 2);
    assert n == "STELC_" + y + mo + d + "-" + h + mi + ".wav";
    assert n[..6] == "STELC_" && n[14] == '-' && n[19..] == ".wav";
    assert n[6..10] == y && n[10..12] == mo && n[12..14] == d;
    assert n[15..17] == h && n[17..19] == mi;
    assert Pow10(2) == 100 && Pow10(4) == 10000 by {
      assert Pow10(1) == 10;
      assert Pow10(3) == 1000;
    }
    FixedRoundTrip(t.year, 4);
    FixedRoundTrip(t.month, 2);
    FixedRoundTrip(t.day, 2);
    FixedRoundTrip(t.hour, 2);
    FixedRoundTrip(t.minute, 2);
  }

  /** The recording operation instance (an `sR.Record`, a class that is not
      part of this model): the arguments it was built with, and whether
      `pause()` was called on it. */
  datatype Take = Take(recordSeconds: int, waveFilename: string, paused: bool)

  /** The Recorder thread (STELC_pi.py:196-328). */
  class Recorder {
    var raised: set<Event>
    var record: Option<Take>
    var waveFilename: string
    var recordSeconds: int

    ghost predicate Valid()
      reads this
    {
      raised <= RecorderEvents
    }

    constructor ()
      ensures Valid() && raised == {} && record == None
      ensures waveFilename == "test.wav" && recordSeconds == 20
    {
      raised := {};
      record := None;
      waveFilename := "test.wav";
      recordSeconds := 20;
    }

    predicate Stopped()
      reads this
    {
      Event.Stop in raised
    }

    /** `recording()`: whether the `_recording_` event is set. */
    predicate IsRecording()
      reads this
    {
      Recording in raised
    }

    /** `clearAll(but)`: every event is cleared except `but`, which keeps
        its value; this includes `_stop_`. */
    method ClearAll(but: Option<Event>)
      requires Valid()
      modifies this`raised
      ensures Valid()
      ensures forall e :: e in raised <==> e in old(raised) && but == Some(e)
    {
      raised := ClearAllBut(RecorderEvents, raised, but);
    }

    /** Another thread calling `_e_.set()` on one of this object's events. */
    method Set(e: Event)
      requires Valid() && e in RecorderEvents
      modifies this`raised
      ensures Valid() && raised == old(raised) + {e}
    {
      raised := raised + {e};
    }

    /** `setFilename(*name)`.  With a name it looks up the misspelt
        `self.recroding`, which does not exist, so it always raises
        AttributeError and never sets the name.  Without one it stamps a new
        name from the clock unless a take is running, and returns the
        current name. */
    method SetFilename(name: Option<string>, now: Clock) returns (r: Result<string>)
      requires Valid()
      modifies this`waveFilename
      ensures name.Some? ==> r == Err(AttributeError("recroding")) && waveFilename == old(waveFilename)
      ensures name.None? && !IsRecording() ==> waveFilename == StampedName(now)
      ensures name.None? && IsRecording() ==> waveFilename == old(waveFilename)
      ensures name.None? ==> r == Ok(waveFilename)
    {
      if name.Some? {
        r := Err(AttributeError("recroding"));
      } else {
        if !IsRecording() {
          waveFilename := StampedName(now);
        }
        r := Ok(waveFilename);
      }
    }

    /** `setRecordSeconds(*sec)`: setting while a take is running raises and
        keeps the old value; otherwise it returns the (new) current value. */
    method SetRecordSeconds(sec: Option<int>) returns (r: Result<int>)
      requires Valid()
      modifies this`recordSeconds
      ensures sec.Some? && IsRecording() ==> r == Err(RecordingError("Can not set record time"))
      ensures sec.Some? && !IsRecording() ==> recordSeconds == sec.value
      ensures sec.None? || IsRecording() ==> recordSeconds == old(recordSeconds)
      ensures sec.None? || !IsRecording() ==> r == Ok(recordSeconds)
    {
      if sec.Some? {
        if IsRecording() {
          return Err(RecordingError("Can not set record time"));
        }
        recordSeconds := sec.value;
      }
      r := Ok(recordSeconds);
    }

    /** `recordStreamActive()`, where `streamActive` is the answer of the
        take's `stream.is_active()`.  It answers only when there is a take
        and `_recording_` is set; with a take but a clear flag it names
        `threading.ThreadingError`, which the threading module does not
        define, so it raises `AttributeError`. */
    method RecordStreamActive(streamActive: bool) returns (r: Result<bool>)
      ensures r.Ok? <==> record.Some? && IsRecording()
      ensures r.Ok? ==> r.value == streamActive
      ensures record.None? ==> r == Err(RecordingError("no active recording instance, thus no active stream"))
      ensures record.Some? && !IsRecording() ==> r == Err(AttributeError("ThreadingError"))
    {
      if record.Some? && IsRecording() {
        r := Ok(streamActive);
      } else if record.None? {
        r := Err(RecordingError("no active recording instance, thus no active stream"));
      } else {
        r := Err(AttributeError("ThreadingError"));
      }
    }

    /** `startRecording()`: a new take from the current settings, and
        `_recording_` set.  It leaves `_startRecording_` as it was. */
    method StartRecording()
      requires Valid()
      modifies this`record, this`raised
      ensures Valid()
      ensures record == Some(Take(recordSeconds, waveFilename, false))
      ensures raised == old(raised) + {Recording}
    {
      record := Some(Take(recordSeconds, waveFilename, false));
      raised := raised + {Recording};
    }

    /** What `pauseRecording()` does (STELC_pi.py:293-303).  The clear-flag
        branch names `threading.ThreadingError`, which the threading module
        does not define, so it raises `AttributeError`. */
    twostate predicate PauseEffect(o: Outcome)
      reads this
    {
      raised == old(raised) &&
      (old(record).Some? && old(IsRecording()) ==>
         o == Pass && record == Some(old(record).value.(paused := true))) &&
      (old(record).None? ==>
         o == Raise(RecordingError("can not pause; no active recording instance")) && record == old(record)) &&
      (old(record).Some? && !old(IsRecording()) ==>
         o == Raise(AttributeError("ThreadingError")) && record == old(record))
    }

    method PauseRecording() returns (o: Outcome)
      requires Valid()
      modifies this`record
      ensures Valid() && PauseEffect(o)
    {
      if record.Some? && IsRecording() {
        record := Some(record.value.(paused := true));
        o := Pass;
      } else if record.None? {
        o := Raise(RecordingError("can not pause; no active recording instance"));
      } else {
        o := Raise(AttributeError("ThreadingError"));
      }
    }

    /** What `stopRecording()` does (STELC_pi.py:305-320): a successful stop
        drops the take and clears `_recording_`; it never touches
        `_stopRecording_`.  As in `PauseEffect`, the clear-flag branch raises
        `AttributeError`. */
    twostate predicate StopEffect(o: Outcome)
      reads this
    {
      (old(record).Some? && old(IsRecording()) ==>
         o == Pass && record == None && raised == old(raised) - {Recording}) &&
      (old(record).None? ==>
         o == Raise(RecordingError("can not stop; no active recording instance"))
         && record == old(record) && raised == old(raised)) &&
      (old(record).Some? && !old(IsRecording()) ==>
         o == Raise(AttributeError("ThreadingError"))
         && record == old(record) && raised == old(raised))
    }

    method StopRecording() returns (o: Outcome)
      requires Valid()
      modifies this`record, this`raised
      ensures Valid() && StopEffect(o)
    {
      if record.Some? && IsRecording() {
        record := None;
        raised := raised - {Recording};
        o := Pass;
      } else if record.None? {
        o := Raise(RecordingError("can not stop; no active recording instance"));
      } else {
        o := Raise(AttributeError("ThreadingError"));
      }
    }

    /** `stop()`. */
    method Stop()
      requires Valid()
      modifies this`raised
      ensures Valid() && raised == old(raised) + {Event.Stop}
    {
      raised := raised + {Event.Stop};
    }

    /** One iteration of `run()` (STELC_pi.py:322-328): the handler of the
        first set event among clear, stopRecording, pauseRecording and
        startRecording runs, and no other.  The start and stop handlers do
        not clear the event that triggered them, so it stays set for the
        next tick. */
    method Tick() returns (h: Option<Event>, o: Outcome)
      requires Valid()
      modifies this`raised, this`record
      ensures Valid()
      ensures h == FirstRaised(old(raised), RecorderPriority)
      ensures waveFilename == old(waveFilename) && recordSeconds == old(recordSeconds)
      ensures h == None ==> o == Pass && raised == old(raised) && record == old(record)
      ensures h == Some(Clear) ==> o == Pass && raised == {} && record == old(record)
      ensures h == Some(Event.StopRecording) ==> StopEffect(o) && Event.StopRecording in raised
      ensures h == Some(Event.PauseRecording) ==> PauseEffect(o)
      ensures h == Some(Event.StartRecording) ==>
                o == Pass && record == Some(Take(recordSeconds, waveFilename, false))
                && raised == old(raised) + {Recording}
      ensures Event.Stop !in old(raised) ==> Event.Stop !in raised
    {
      RecorderDispatch(raised);
      if Clear in raised {
        ClearAll(None);
        assert raised == {};
        return Some(Clear), Pass;
      }
      if Event.StopRecording in raised {
        o := StopRecording();
        return Some(Event.StopRecording), o;
      }
      if Event.PauseRecording in raised {
        o := PauseRecording();
        return Some(Event.PauseRecording), o;
      }
      if Event.StartRecording in raised {
        StartRecording();
        return Some(Event.StartRecording), Pass;
      }
      return None, Pass;
    }

    /** `run()` for at most `maxTicks` iterations: the loop tests `_stop_`
        before every tick, and an exception out of a handler ends the
        thread. */
    method Run(maxTicks: nat)
        returns (ticks: nat, o: Outcome, ghost before: seq<set<Event>>, ghost handlers: seq<Option<Event>>)
      requires Valid()
      modifies this`raised, this`record
      ensures Valid() && ticks <= maxTicks
      ensures Stopped() == old(Stopped())
      ensures old(Stopped()) ==> ticks == 0 && o == Pass
      ensures o.Pass? && ticks < maxTicks ==> Stopped()
      ensures !old(Stopped()) && o.Pass? ==> ticks == maxTicks
      ensures waveFilename == old(waveFilename) && recordSeconds == old(recordSeconds)
      ensures |before| == ticks && (ticks > 0 ==> before[0] == old(raised))
      ensures IsTrace(before, handlers, RecorderPriority)
    {
      ticks, o, before, handlers := 0, Pass, [], [];
      while ticks < maxTicks && !Stopped()
        invariant Valid() && ticks <= maxTicks && o == Pass
        invariant Stopped() == old(Stopped()) && (old(Stopped()) ==> ticks == 0)
        invariant waveFilename == old(waveFilename) && recordSeconds == old(recordSeconds)
        invariant |before| == ticks && (ticks > 0 ==> before[0] == old(raised))
        invariant ticks == 0 ==> raised == old(raised)
        invariant IsTrace(before, handlers, RecorderPriority)
        invariant ticks > 0 && handlers[ticks - 1] == None ==> raised == before[ticks - 1]
      {
        ghost var flags := raised;
        var h, r := Tick();
        TraceExtend(before, handlers, RecorderPriority, flags, h);
        before, handlers := before + [flags], handlers + [h];
        ticks := ticks + 1;
        if r.Raise? {
          return ticks, r, before, handlers;
        }
      }
    }
  }

  /** The Controller thread (STELC_pi.py:24-193).  The display it drives is
      reduced to what the controller writes into it: the status message,
      the state it last asked the display to enter, and the number of the
      query a button press brings up. */
  class Controller {
    var raised: set<Event>
    const recorder: Recorder
    var status: string
    var panel: Option<int>
    var defaultQuery: nat

    /** Query numbers of the "Record?" and "Cancel?" queries (STELC_pi.py:47, :53). */
    const recordQueryNum: nat := 0
    const cancelQueryNum: nat := 1

    ghost predicate Valid()
      reads this, recorder
    {
      raised <= ControllerEvents && recorder.Valid()
    }

    /** At most one of `_recording_`, `_converting_` and `_uploading_` is set. */
    predicate StageExclusive()
      reads this
    {
      forall a, b :: a in raised && b in raised && a in Stages && b in Stages ==> a == b
    }

    /** The state `idle()` leaves the controller in. */
    predicate IsIdle()
      reads this
    {
      raised == {} && status == Display.DEFAULT_STATUS && panel == Some(Display.IDLE)
      && defaultQuery == recordQueryNum
    }

    constructor (recorder: Recorder)
      requires recorder.Valid()
      ensures Valid() && this.recorder == recorder
      ensures raised == {} && status == Display.DEFAULT_STATUS && panel == None
      ensures defaultQuery == recordQueryNum
    {
      this.recorder := recorder;
      raised := {};
      status := Display.DEFAULT_STATUS;
      panel := None;
      defaultQuery := 0;
    }

    predicate Stopped()
      reads this
    {
      Event.Stop in raised
    }

    /** `clearAll(but)` (STELC_pi.py:64-68). */
    method ClearAll(but: Option<Event>)
      requires Valid()
      modifies this`raised
      ensures Valid()
      ensures forall e :: e in raised <==> e in old(raised) && but == Some(e)
    {
      raised := ClearAllBut(ControllerEvents, raised, but);
    }

    /** Another thread calling `_e_.set()` on one of the controller's events. */
    method Set(e: Event)
      requires Valid() && e in ControllerEvents
      modifies this`raised
      ensures Valid() && raised == old(raised) + {e}
    {
      raised := raised + {e};
    }

    /** `stop()` (the display is switched off as well, which is not modelled). */
    method Stop()
      requires Valid()
      modifies this`raised
      ensures Valid() && raised == old(raised) + {Event.Stop}
    {
      raised := raised + {Event.Stop};
    }

    /** `idle()` (STELC_pi.py:174-182). */
    method Idle()
      requires Valid()
      modifies this`raised, this`status, this`panel, this`defaultQuery
      ensures Valid() && IsIdle() && StageExclusive()
    {
      ClearAll(None);
      status := Display.DEFAULT_STATUS;
      panel := Some(Display.IDLE);
      defaultQuery := recordQueryNum;
    }

    /** `convert()` (STELC_pi.py:139-149): only `_converting_` is left set. */
    method Convert()
      requires Valid()
      modifies this`raised, this`panel, this`defaultQuery
      ensures Valid() && StageExclusive()
      ensures raised == {Converting}
      ensures panel == Some(Display.PROCESS) && defaultQuery == cancelQueryNum
    {
      ClearAll(None);
      raised := raised + {Converting};
      panel := Some(Display.PROCESS);
      defaultQuery := cancelQueryNum;
    }

    /** `upload()` (STELC_pi.py:157-166): only `_uploading_` is left set. */
    method Upload()
      requires Valid()
      modifies this`raised, this`panel, this`defaultQuery
      ensures Valid() && StageExclusive()
      ensures raised == {Uploading}
      ensures panel == Some(Display.PROCESS) && defaultQuery == cancelQueryNum
    {
      ClearAll(None);
      raised := raised + {Uploading};
      panel := Some(Display.PROCESS);
      defaultQuery := cancelQueryNum;
    }

    /** `converting()` (STELC_pi.py:151-155). */
    method WhileConverting()
      modifies this`status
      ensures status == "converting..."
    {
      status := "converting...";
    }

    /** `uploading()` (STELC_pi.py:168-172). */
    method WhileUploading()
      modifies this`status
      ensures status == "uploading..."
    {
      status := "uploading...";
    }

    /** `record(recordSeconds)` (STELC_pi.py:103-122).  Only `_recording_` is
        left set on the controller whether or not the recorder accepts the
        take.  If the recorder is already recording, `setRecordSeconds`
        raises and nothing else happens; otherwise the recorder holds a new
        take of `seconds` seconds under a fresh time-stamped name, with
        `_recording_` set.  Without `seconds` the take lasts
        RECORD_SECONDS_DEFAULT seconds, three hours.  The recorder's `_startRecording_` event is not
        used. */
    method Record(now: Clock, seconds: int := RECORD_SECONDS_DEFAULT) returns (o: Outcome)
      requires Valid()
      modifies this`raised, this`panel, this`defaultQuery, recorder
      ensures Valid() && StageExclusive()
      ensures raised == {Recording}
      ensures old(recorder.IsRecording()) ==>
                o == Raise(RecordingError("Can not set record time")) && unchanged(recorder)
                && panel == old(panel) && defaultQuery == old(defaultQuery)
      ensures !old(recorder.IsRecording()) ==>
                o == Pass && recorder.recordSeconds == seconds
                && recorder.waveFilename == StampedName(now)
                && recorder.record == Some(Take(seconds, StampedName(now), false))
                && recorder.raised == old(recorder.raised) + {Recording}
                && panel == Some(Display.PROCESS) && defaultQuery == cancelQueryNum
    {
      ClearAll(None);
      assert raised == {};
      raised := raised + {Recording};
      assert StageExclusive();
      var r := recorder.SetRecordSeconds(Some(seconds));
      if r.Err? {
        return Raise(r.error);
      }
      var _ := recorder.SetFilename(None, now);
      recorder.StartRecording();
      panel := Some(Display.PROCESS);
      defaultQuery := cancelQueryNum;
      o := Pass;
    }

    /** What one call of the controller's `recording()` handler does
        (STELC_pi.py:124-137): it asks the recorder whether its stream is
        active, which raises when there is no take or `_recording_` is
        clear.  An inactive stream stops the take and sends the controller
        to idle, not on to converting.  An active stream changes nothing
        but the status line. */
    twostate predicate RecordingEffect(streamActive: bool, o: Outcome)
      reads this, recorder
    {
      (old(recorder.record).None? ==>
         o == Raise(RecordingError("no active recording instance, thus no active stream"))) &&
      (old(recorder.record).Some? && !old(recorder.IsRecording()) ==>
         o == Raise(AttributeError("ThreadingError"))) &&
      (o.Raise? || streamActive ==>
         status == "recording..." && raised == old(raised) && unchanged(recorder)
         && panel == old(panel) && defaultQuery == old(defaultQuery)) &&
      (old(recorder.record).Some? && old(recorder.IsRecording()) && !streamActive ==>
         o == Pass && IsIdle() && recorder.record == None
         && recorder.raised == old(recorder.raised) - {Recording}
         && recorder.waveFilename == old(recorder.waveFilename)
         && recorder.recordSeconds == old(recorder.recordSeconds)) &&
      (old(recorder.record).Some? && old(recorder.IsRecording()) ==> o == Pass)
    }

    /** The controller's `recording()` tick handler.  It returns nothing (so
        a caller testing its result always sees None). */
    method WhileRecording(streamActive: bool) returns (o: Outcome)
      requires Valid()
      modifies this`raised, this`status, this`panel, this`defaultQuery, recorder
      ensures Valid() && (old(StageExclusive()) ==> StageExclusive())
      ensures RecordingEffect(streamActive, o)
    {
      status := "recording...";
      var active := recorder.RecordStreamActive(streamActive);
      if active.Err? {
        return Raise(active.error);
      }
      if !active.value {
        var _ := recorder.StopRecording();
        ClearAll(None);
        Idle();
      }
      o := Pass;
    }

    /** What one call of `cancel()` does (STELC_pi.py:91-101): the same
        exceptions as the `recording()` handler, which escape with only the
        status line changed; otherwise the controller goes idle, and the
        recorder's take ends exactly when its stream had already ended. */
    twostate predicate CancelEffect(streamActive: bool, o: Outcome)
      reads this, recorder
    {
      (old(recorder.record).None? ==>
         o == Raise(RecordingError("no active recording instance, thus no active stream"))) &&
      (old(recorder.record).Some? && !old(recorder.IsRecording()) ==>
         o == Raise(AttributeError("ThreadingError"))) &&
      (o.Raise? ==>
         status == "recording..." && raised == old(raised) && unchanged(recorder)
         && panel == old(panel) && defaultQuery == old(defaultQuery)) &&
      (old(recorder.record).Some? && old(recorder.IsRecording()) ==>
         o == Pass && IsIdle()
         && recorder.waveFilename == old(recorder.waveFilename)
         && recorder.recordSeconds == old(recorder.recordSeconds)
         && (recorder.IsRecording() <==> streamActive)
         && (streamActive ==> unchanged(recorder))
         && (!streamActive ==>
               recorder.record == None && recorder.raised == old(recorder.raised) - {Recording}))
    }

    /** `cancel()` (STELC_pi.py:91-101).  Its test `if self.recording():`
        calls the controller's own `recording()` handler, whose result is
        always None, so the `stopRecording()` under it is never reached.
        The recorder is therefore stopped only when its stream had already
        ended; an active take keeps running while the controller goes idle.
        The handler's exceptions escape, leaving the controller's events as
        they were. */
    method Cancel(streamActive: bool) returns (o: Outcome)
      requires Valid()
      modifies this`raised, this`status, this`panel, this`defaultQuery, recorder
      ensures Valid() && (old(StageExclusive()) ==> StageExclusive())
      ensures CancelEffect(streamActive, o)
    {
      o := WhileRecording(streamActive);
      if o.Raise? {
        return;
      }
      ClearAll(None);
      Idle();
    }

    /** One iteration of `run()` (STELC_pi.py:184-193): the handler of the
        first set event among clear, cancel, recording, converting and
        uploading runs, and no other. */
    method Tick(streamActive: bool) returns (h: Option<Event>, o: Outcome)
      requires Valid()
      modifies this`raised, this`status, this`panel, this`defaultQuery, recorder
      ensures Valid() && (old(StageExclusive()) ==> StageExclusive())
      ensures h == FirstRaised(old(raised), ControllerPriority)
      ensures HandlerEffect(h, streamActive, o)
      ensures h == Some(Event.Cancel) && o.Pass? ==> IsIdle()
      ensures h == None ==> raised == old(raised)
      ensures Event.Stop !in old(raised) ==> Event.Stop !in raised
      ensures recorder.waveFilename == old(recorder.waveFilename)
      ensures recorder.recordSeconds == old(recorder.recordSeconds)
      ensures o.Raise? ==>
                o.error in {RecordingError("no active recording instance, thus no active stream"),
                            AttributeError("ThreadingError")}
    {
      ControllerDispatch(raised);
      if Clear in raised {
        h := Some(Clear);
      } else if Event.Cancel in raised {
        h := Some(Event.Cancel);
      } else if Recording in raised {
        h := Some(Recording);
      } else if Converting in raised {
        h := Some(Converting);
      } else if Uploading in raised {
        h := Some(Uploading);
      } else {
        h := None;
      }
      o := Handle(h, streamActive);
    }

    /** What running the handler of `h` does, by handler: clear empties the
        events, the converting and uploading handlers only write the status
        line, cancel and recording are `CancelEffect` and
        `RecordingEffect`, and with no handler nothing changes. */
    twostate predicate HandlerEffect(h: Option<Event>, streamActive: bool, o: Outcome)
      reads this, recorder
    {
      (h != Some(Event.Cancel) && h != Some(Recording) ==>
         o == Pass && unchanged(recorder) && panel == old(panel) && defaultQuery == old(defaultQuery)) &&
      (h == None ==> raised == old(raised) && status == old(status)) &&
      (h == Some(Clear) ==> raised == {} && status == old(status)) &&
      (h == Some(Converting) ==> raised == old(raised) && status == "converting...") &&
      (h == Some(Uploading) ==> raised == old(raised) && status == "uploading...") &&
      (h == Some(Recording) ==> RecordingEffect(streamActive, o)) &&
      (h == Some(Event.Cancel) ==> CancelEffect(streamActive, o))
    }

    /** The body of the branch of `run()` that handles `h`. */
    method Handle(h: Option<Event>, streamActive: bool) returns (o: Outcome)
      requires Valid()
      modifies this`raised, this`status, this`panel, this`defaultQuery, recorder
      ensures Valid() && (old(StageExclusive()) ==> StageExclusive())
      ensures HandlerEffect(h, streamActive, o)
      ensures h == None ==> raised == old(raised)
      ensures Event.Stop !in old(raised) ==> Event.Stop !in raised
      ensures recorder.waveFilename == old(recorder.waveFilename)
      ensures recorder.recordSeconds == old(recorder.recordSeconds)
      ensures o.Raise? ==>
                o.error in {RecordingError("no active recording instance, thus no active stream"),
                            AttributeError("ThreadingError")}
    {
      o := Pass;
      match h
      case Some(Clear) =>
        ClearAll(None);
        assert raised == {};
      case Some(Cancel) =>
        o := Cancel(streamActive);
      case Some(Recording) =>
        o := WhileRecording(streamActive);
      case Some(Converting) =>
        WhileConverting();
      case Some(Uploading) =>
        WhileUploading();
      case _ =>
    }

    /** `run()` over one recorder stream reading per tick: the loop tests
        `_stop_` before every tick, and an exception out of a handler ends
        the thread.  No controller handler sets `_stop_`, so only a stop
        that was already requested ends the loop early. */
    method Run(streams: seq<bool>)
        returns (ticks: nat, o: Outcome, ghost before: seq<set<Event>>, ghost handlers: seq<Option<Event>>)
      requires Valid()
      modifies this`raised, this`status, this`panel, this`defaultQuery, recorder
      ensures Valid() && (old(StageExclusive()) ==> StageExclusive()) && ticks <= |streams|
      ensures Stopped() == old(Stopped())
      ensures old(Stopped()) ==> ticks == 0 && o == Pass
      ensures o.Pass? && ticks < |streams| ==> Stopped()
      ensures !old(Stopped()) && o.Pass? ==> ticks == |streams|
      ensures o.Raise? ==>
                o.error in {RecordingError("no active recording instance, thus no active stream"),
                            AttributeError("ThreadingError")}
      ensures recorder.waveFilename == old(recorder.waveFilename)
      ensures recorder.recordSeconds == old(recorder.recordSeconds)
      ensures |before| == ticks && (ticks > 0 ==> before[0] == old(raised))
      ensures IsTrace(before, handlers, ControllerPriority)
    {
      ticks, o, before, handlers := 0, Pass, [], [];
      while ticks < |streams| && !Stopped()
        invariant Valid() && (old(StageExclusive()) ==> StageExclusive()) && ticks <= |streams| && o == Pass
        invariant Stopped() == old(Stopped()) && (old(Stopped()) ==> ticks == 0)
        invariant recorder.waveFilename == old(recorder.waveFilename)
        invariant recorder.recordSeconds == old(recorder.recordSeconds)
        invariant |before| == ticks && (ticks > 0 ==> before[0] == old(raised))
        invariant ticks == 0 ==> raised == old(raised)
        invariant IsTrace(before, handlers, ControllerPriority)
        invariant ticks > 0 && handlers[ticks - 1] == None ==> raised == before[ticks - 1]
      {
        ghost var flags := raised;
        var h, r := Tick(streams[ticks]);
        TraceExtend(before, handlers, ControllerPriority, flags, h);
        before, handlers := before + [flags], handlers + [h];
        ticks := ticks + 1;
        if r.Raise? {
          return ticks, r, before, handlers;
        }
      }
    }
  }

  /** The Scheduler and Uploader threads (STELC_pi.py:331-396): both hold
      only `_stop_` and `_clear_`, and a tick only clears. */
  class StubWorker {
    var raised: set<Event>

    ghost predicate Valid()
      reads this
    {
      raised <= StubEvents
    }

    constructor ()
      ensures Valid() && raised == {}
    {
      raised := {};
    }

    predicate Stopped()
      reads this
    {
      Event.Stop in raised
    }

    method ClearAll(but: Option<Event>)
      requires Valid()
      modifies this
      ensures Valid()
      ensures forall e :: e in raised <==> e in old(raised) && but == Some(e)
    {
      raised := ClearAllBut(StubEvents, raised, but);
    }

    method Stop()
      requires Valid()
      modifies this
      ensures Valid() && raised == old(raised) + {Event.Stop}
    {
      raised := raised + {Event.Stop};
    }

    /** One iteration of `run()`: a set `_clear_` clears both events. */
    method Tick() returns (h: Option<Event>)
      requires Valid()
      modifies this
      ensures Valid()
      ensures h == FirstRaised(old(raised), StubPriority)
      ensures h == Some(Clear) ==> raised == {}
      ensures h == None ==> raised == old(raised)
    {
      if Clear in raised {
        h := Some(Clear);
        ClearAll(None);
      } else {
        h := None;
      }
    }
  }
}
