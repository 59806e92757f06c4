/** The front panel of STELC_Display.py with the LCD taken away: the
    scrolling blocks' offset arithmetic, the queries' cursor and line
    composition, and the query block's OFF/IDLE/PROCESS/QUERY machine.  The
    pressed button, "the scroll rate has elapsed" and "the idle delay has
    elapsed" are inputs; the actions a query fires are opaque tags. */
module Display {
  import opened PyRuntime

  /** Display states (STELC_Display.py:14-17). */
  const OFF := 0
  const IDLE := 1
  const PROCESS := 2
  const QUERY := 3

  const DEFAULT_STATUS := "STELC pi "

  // ---------------------------------------------------------------------
  // Scrolling blocks

  /** `"%s%s%s" % (message, " "*spacer, message)[offset:offset+blockLength]`:
      the part of the message, a gap and a second copy that the block shows. */
  function Window(message: string, offset: int, blockLength: nat): (w: string)
    ensures |w| <= blockLength
  {
    Slice(message + Spaces(blockLength / 2) + message, offset, offset + blockLength)
  }

  /** The offset and step of a scrolling block. */
  datatype Scroll = Scroll(offset: int, step: int)

  /** What `scroll(msg)` makes of the offset and step, for a message of
      length `len` (STELC_Display.py:67-91).  Nothing moves until the scroll
      rate has elapsed. */
  function ScrollStep(s: Scroll, oscillate: bool, len: nat, blockLength: nat, spacer: nat, elapsed: bool): Scroll
  {
    if !elapsed then s
    else
      var step := if oscillate && s.offset > len - blockLength - 1 then s.step - 1 else s.step;
      if s.offset > len + spacer - 2 then Scroll(0, step)
      else if s.offset < 0 then Scroll(0, 1)
      else Scroll(s.offset + step, step)
  }

  /** The reachable states of a block that scrolls round a message longer
      than itself: one step forward at a time, through the gap and into the
      second copy, and back to 0. */
  predicate Circling(s: Scroll, len: nat, spacer: nat) {
    s.step == 1 && 0 <= s.offset <= len + spacer - 1
  }

  /** The reachable states of a block that swings to and fro over a message
      longer than itself: forward to the last full window, one pause there,
      then back to one before the start. */
  predicate Swinging(s: Scroll, len: nat, blockLength: nat) {
    var last := len - blockLength;
    (s.step == 1 && 0 <= s.offset <= last) ||
    (s.step == 0 && s.offset == last) ||
    (s.step == -1 && -1 <= s.offset < last)
  }

  /** A circling block stays circling, moving one place on each elapsed
      rate and wrapping to 0 after the last place. */
  lemma CirclingStep(s: Scroll, len: nat, blockLength: nat, elapsed: bool)
    requires len > blockLength && Circling(s, len, blockLength / 2)
    ensures var s' := ScrollStep(s, false, len, blockLength, blockLength / 2, elapsed);
            Circling(s', len, blockLength / 2) &&
            s'.offset == if !elapsed then s.offset
                         else if s.offset == len + blockLength / 2 - 1 then 0
                         else s.offset + 1
  {
  }

  /** A circling block always shows a full window. */
  lemma CirclingWindowFull(message: string, s: Scroll, blockLength: nat)
    requires |message| > blockLength && Circling(s, |message|, blockLength / 2)
    ensures |Window(message, s.offset, blockLength)| == blockLength
  {
  }

  /** A swinging block stays swinging (for blocks of at least two cells),
      so its step only ever takes the values 1, 0 and -1. */
  lemma SwingingStep(s: Scroll, len: nat, blockLength: nat, elapsed: bool)
    requires len > blockLength >= 2 && Swinging(s, len, blockLength)
    ensures var s' := ScrollStep(s, true, len, blockLength, blockLength / 2, elapsed);
            Swinging(s', len, blockLength) && -1 <= s'.step <= 1
  {
  }

  /** A swinging block shows a full window except at offset -1, where the
      slice is empty. */
  lemma SwingingWindow(message: string, s: Scroll, blockLength: nat)
    requires |message| > blockLength && Swinging(s, |message|, blockLength)
    ensures |Window(message, s.offset, blockLength)| == if s.offset == -1 then 0 else blockLength
  {
  }

  /** Once the offset is below zero, the next elapsed scroll puts it back at
      0 going forward, whatever the step was. */
  lemma ScrollBelowZero(s: Scroll, oscillate: bool, len: nat, blockLength: nat, spacer: nat)
    requires s.offset < 0 && len + spacer >= 1
    ensures ScrollStep(s, oscillate, len, blockLength, spacer, true) == Scroll(0, 1)
  {
  }

  /** The reachable states of a block of the given kind showing a message
      of length `len`. */
  predicate SteadyScroll(s: Scroll, oscillate: bool, len: nat, blockLength: nat) {
    len > blockLength ==>
      if oscillate then blockLength >= 2 && Swinging(s, len, blockLength)
      else Circling(s, len, blockLength / 2)
  }

  /** One `update()` of a long message keeps a block steady, and shows a
      full window except in the one swinging state at offset -1. */
  lemma SteadyUpdate(message: string, s: Scroll, oscillate: bool, blockLength: nat, elapsed: bool)
    requires |message| > blockLength && SteadyScroll(s, oscillate, |message|, blockLength)
    ensures SteadyScroll(ScrollStep(s, oscillate, |message|, blockLength, blockLength / 2, elapsed),
                         oscillate, |message|, blockLength)
    ensures |Window(message, s.offset, blockLength)| == if oscillate && s.offset == -1 then 0 else blockLength
  {
    if oscillate {
      SwingingStep(s, |message|, blockLength, elapsed);
      SwingingWindow(message, s, blockLength);
    } else {
      CirclingStep(s, |message|, blockLength, elapsed);
      CirclingWindowFull(message, s, blockLength);
    }
  }

  /** What `update()` shows for a message that fits the block
      (STELC_Display.py:63-65): the message and then
      `blockLength - len(window) + 1` spaces. */
  function Fill(message: string, window: string, blockLength: nat): string
  {
    message + Spaces(blockLength - |window| + 1)
  }

  /** A message that fits is shown whole and followed by at least one
      space. */
  lemma FillKeepsMessage(message: string, offset: int, blockLength: nat)
    ensures var out := Fill(message, Window(message, offset, blockLength), blockLength);
            |out| >= |message| + 1 && out[..|message|] == message &&
            forall i :: |message| <= i < |out| ==> out[i] == ' '
  {
  }

  /** At offset 0 the fill is counted from the window, not from the
      message, so a message whose two copies fill the window gets a single
      trailing space and does not reach the end of the block. */
  lemma FillAtStart(message: string, blockLength: nat)
    requires |message| <= blockLength
    ensures var out := Fill(message, Window(message, 0, blockLength), blockLength);
            |out| == if 2 * |message| + blockLength / 2 >= blockLength then |message| + 1
                     else blockLength + 1 - |message| - blockLength / 2
  {
    var w := Window(message, 0, blockLength);
    var long := message + Spaces(blockLength / 2) + message;
    assert |w| == if |long| < blockLength then |long| else blockLength;
  }

  /** ScrollingBlock and its StatusBlock flavour (STELC_Display.py:24-113);
      the time of the last step and the rate are replaced by the `elapsed`
      input of `Update`. */
  class ScrollingBlock {
    var offset: int
    var offsetStep: int
    var offsetOscillate: bool
    var blockLength: nat
    var message: string
    var spacerLength: nat
    var out: string

    /** A block whose message is longer than itself is in one of the states
        its kind of scrolling reaches. */
    ghost predicate Steady()
      reads this
    {
      SteadyScroll(Scroll(offset, offsetStep), offsetOscillate, |message|, blockLength)
    }

    /** `ScrollingBlock.__init__`. */
    constructor ()
      ensures offset == 0 && offsetStep == 1 && !offsetOscillate && blockLength == 9
      ensures message == "" && spacerLength == 0 && out == ""
      ensures Steady()
    {
      offset, offsetStep, offsetOscillate, blockLength := 0, 1, false, 9;
      message, spacerLength, out := "", 0, "";
    }

    /** `StatusBlock.__init__`: ten cells wide, oscillating. */
    constructor Status()
      ensures offset == 0 && offsetStep == 1 && offsetOscillate && blockLength == 10
      ensures message == "" && spacerLength == 0 && out == ""
      ensures Steady()
    {
      offset, offsetStep, offsetOscillate, blockLength := 0, 1, true, 10;
      message, spacerLength, out := "", 0, "";
    }

    /** `scroll(msg)`. */
    method ScrollOnce(msg: string, elapsed: bool)
      modifies this`offset, this`offsetStep
      ensures Scroll(offset, offsetStep)
           == ScrollStep(Scroll(old(offset), old(offsetStep)), offsetOscillate, |msg|, blockLength, spacerLength, elapsed)
    {
      if elapsed {
        if offsetOscillate {
          if offset > |msg| - blockLength - 1 {
            offsetStep := offsetStep - 1;
          }
        }
        if offset > |msg| + spacerLength - 2 {
          offset := 0;
        } else if offset < 0 {
          offset := 0;
          offsetStep := 1;
        } else {
          offset := offset + offsetStep;
        }
      }
    }

    /** `update()`: the window is cut at the current offset, then a long
        message scrolls and a short one is shown with a space fill.  A
        steady block stays steady, and a long message fills the block except
        in the one swinging state at offset -1. */
    method Update(elapsed: bool)
      modifies this`offset, this`offsetStep, this`spacerLength, this`out
      ensures spacerLength == blockLength / 2
      ensures |message| > blockLength ==>
                out == Window(message, old(offset), blockLength) &&
                Scroll(offset, offsetStep) == ScrollStep(Scroll(old(offset), old(offsetStep)), offsetOscillate,
                                                         |message|, blockLength, blockLength / 2, elapsed)
      ensures |message| <= blockLength ==>
                out == Fill(message, Window(message, offset, blockLength), blockLength) &&
                offset == old(offset) && offsetStep == old(offsetStep)
      ensures old(Steady()) ==> Steady()
      ensures old(Steady()) && |message| > blockLength ==>
                |out| == if offsetOscillate && old(offset) == -1 then 0 else blockLength
    {
      spacerLength := blockLength / 2;
      var w := Window(message, offset, blockLength);
      out := w;
      if |message| > blockLength {
        ghost var s0 := Scroll(offset, offsetStep);
        if SteadyScroll(s0, offsetOscillate, |message|, blockLength) {
          SteadyUpdate(message, s0, offsetOscillate, blockLength, elapsed);
        }
        ScrollOnce(message, elapsed);
      } else {
        out := Fill(message, w, blockLength);
      }
    }
  }

  // ---------------------------------------------------------------------
  // Queries

  /** What a selected (and verified) response does: an opaque tag standing
      for the compiled `Action` code string. */
  datatype Action = Action(code: string)

  /** A response tuple `(label, position, needVerify, action)`. */
  datatype Response = Response(text: string, position: int, needVerify: bool, action: Option<Action>)

  /** The index of the last response at cursor position `p`, if any. */
  function LastMatch(rs: seq<Response>, p: int): (r: Option<nat>)
    ensures r.Some? ==> r.value < |rs| && rs[r.value].position == p &&
                        forall j :: r.value < j < |rs| ==> rs[j].position != p
    ensures r.None? ==> forall j :: 0 <= j < |rs| ==> rs[j].position != p
  {
    if rs == [] then None
    else if rs[|rs| - 1].position == p then Some(|rs| - 1)
    else LastMatch(rs[..|rs| - 1], p)
  }

  /** The response `nextPosition()` moves the cursor to: the one after the
      last response at the cursor, wrapping round, or the first one when no
      response is at the cursor. */
  function NextIndex(rs: seq<Response>, p: int): (k: nat)
    requires |rs| > 0
    ensures k < |rs|
  {
    match LastMatch(rs, p)
    case None => 0
    case Some(i) => if i + 1 >= |rs| then 0 else i + 1
  }

  /** The response `prevPosition()` moves the cursor to: the one before the
      last response at the cursor, wrapping round, or the first one when no
      response is at the cursor. */
  function PrevIndex(rs: seq<Response>, p: int): (k: nat)
    requires |rs| > 0
    ensures k < |rs|
  {
    match LastMatch(rs, p)
    case None => 0
    case Some(i) => if i == 0 then |rs| - 1 else i - 1
  }

  predicate DistinctPositions(rs: seq<Response>) {
    forall i, j :: 0 <= i < j < |rs| ==> rs[i].position != rs[j].position
  }

  /** With distinct positions, the last response at a response's position
      is that response. */
  lemma {:induction false} LastMatchAt(rs: seq<Response>, i: nat)
    requires i < |rs| && DistinctPositions(rs)
    ensures LastMatch(rs, rs[i].position) == Some(i)
    decreases |rs|
  {
    if i < |rs| - 1 {
      LastMatchAt(rs[..|rs| - 1], i);
    }
  }

  /** With distinct positions the cursor cycles through the responses in
      order, forward with `next` and backward with `prev`. */
  lemma CursorCycles(rs: seq<Response>, i: nat)
    requires i < |rs| && DistinctPositions(rs)
    ensures NextIndex(rs, rs[i].position) == (i + 1) % |rs|
    ensures PrevIndex(rs, rs[i].position) == (i + |rs| - 1) % |rs|
  {
    LastMatchAt(rs, i);
    WrapAround(i, |rs|);
  }

  /** One step forward or back on a ring of `n` places. */
  lemma WrapAround(i: nat, n: nat)
    requires i < n
    ensures (i + 1) % n == if i + 1 < n then i + 1 else 0
    ensures (i + n - 1) % n == if i == 0 then n - 1 else i - 1
  {
    if i + 1 < n {
      ModSmall(i + 1, n);
    } else {
      ModSmall(0, n);
      ModPlus(0, n);
    }
    if i == 0 {
      ModSmall(n - 1, n);
    } else {
      ModPlus(i - 1, n);
    }
  }

  lemma ModSmall(a: int, n: int)
    requires 0 <= a < n
    ensures a % n == a
  {
  }

  lemma ModPlus(a: int, n: int)
    requires 0 <= a < n
    ensures (a + n) % n == a
  {
  }

  /** With distinct positions, `prev` undoes `next` and `next` undoes
      `prev`. */
  lemma NextPrevInverse(rs: seq<Response>, i: nat)
    requires i < |rs| && DistinctPositions(rs)
    ensures PrevIndex(rs, rs[NextIndex(rs, rs[i].position)].position) == i
    ensures NextIndex(rs, rs[PrevIndex(rs, rs[i].position)].position) == i
  {
    CursorCycles(rs, i);
    CursorCycles(rs, NextIndex(rs, rs[i].position));
    CursorCycles(rs, PrevIndex(rs, rs[i].position));
  }

  /** A cursor off every response goes to the first response either way. */
  lemma CursorOffResponses(rs: seq<Response>, p: int)
    requires |rs| > 0 && forall j :: 0 <= j < |rs| ==> rs[j].position != p
    ensures NextIndex(rs, p) == 0 && PrevIndex(rs, p) == 0
  {
  }

  /** `list((blockLength+1)*" ")` overlaid with `ml[0:len(message)] =
      list(message)`: the message, then spaces up to `blockLength+1` cells. */
  function Overlay(message: string, blockLength: nat): (ml: string)
    ensures ml == message + Spaces(blockLength + 1 - |message|)
  {
    var blank := Spaces(blockLength + 1);
    var r := SliceAssign(blank, 0, |message|, message);
    assert |message| <= |blank| ==> blank[|message|..] == Spaces(blockLength + 1 - |message|);
    r
  }

  /** `ml[r[1]+1:len(r[0])+1] = list(r[0])` for one response.  When the
      position is at least the label's length the slice is empty and the
      label is inserted after the position; otherwise it overwrites the
      cells from just after the position up to the label's length. */
  function SpliceLabel(ml: string, r: Response): (res: string)
    ensures 0 <= r.position && r.position >= |r.text| && r.position < |ml| ==>
              res == ml[..r.position + 1] + r.text + ml[r.position + 1..]
    ensures 0 <= r.position < |r.text| < |ml| ==>
              res == ml[..r.position + 1] + r.text + ml[|r.text| + 1..]
  {
    SliceAssign(ml, r.position + 1, |r.text| + 1, r.text)
  }

  /** The labels spliced in one after the other, in list order. */
  function SpliceLabels(ml: string, rs: seq<Response>): string
  {
    if rs == [] then ml else SpliceLabel(SpliceLabels(ml, rs[..|rs| - 1]), rs[|rs| - 1])
  }

  /** `ml[position:position+1] = ">"`. */
  function MarkCursor(ml: string, position: int): (line: string)
    ensures 0 <= position < |ml| ==> line == ml[..position] + ">" + ml[position + 1..]
    ensures 0 <= position < |ml| ==> (|line| == |ml| && line[position] == '>' &&
              forall i :: 0 <= i < |ml| && i != position ==> line[i] == ml[i])
    ensures position == |ml| ==> line == ml + ">"
  {
    SliceAssign(ml, position, position + 1, ">")
  }

  /** The line `makeMessage(blockLength)` composes. */
  function QueryLine(message: string, rs: seq<Response>, position: int, blockLength: nat): string
  {
    MarkCursor(SpliceLabels(Overlay(message, blockLength), rs), position)
  }

  /** The labels of a Verifier spliced into its blank line: "Yes" goes in
      after cell 7 and "No" after cell 11, both inserted, so the line grows
      from 17 to 22 cells. */
  lemma VerifierLabels(action: Option<Action>)
    ensures SpliceLabels(Overlay("Sure?", 16), VerifierResponses(action)) == "Sure?   Yes No        "
  {
    var rs := VerifierResponses(action);
    var base := Overlay("Sure?", 16);
    VerifierBlank();
    assert rs[..1][..0] == [];
    assert SpliceLabels(base, rs[..1]) == SpliceLabel(base, rs[0]);
    SpliceYes(rs[0]);
    assert rs[..1] == rs[..|rs| - 1];
    assert SpliceLabels(base, rs) == SpliceLabel(SpliceLabels(base, rs[..1]), rs[1]);
    SpliceNo(rs[1]);
  }

  /** The blank line of a Verifier: "Sure?" and twelve spaces. */
  lemma VerifierBlank()
    ensures Overlay("Sure?", 16) == "Sure?            "
  {
    assert Spaces(12) == "            ";
  }

  /** "Yes" at position 7 is inserted after the eighth cell. */
  lemma SpliceYes(r: Response)
    requires r.text == "Yes" && r.position == 7
    ensures SpliceLabel("Sure?            ", r) == "Sure?   Yes         "
  {
    var ml := "Sure?            ";
    assert ml[..8] == "Sure?   " && ml[8..] == "         ";
  }

  /** "No" at position 11 is inserted after the twelfth cell. */
  lemma SpliceNo(r: Response)
    requires r.text == "No" && r.position == 11
    ensures SpliceLabel("Sure?   Yes         ", r) == "Sure?   Yes No        "
  {
    var ml := "Sure?   Yes         ";
    assert ml[..12] == "Sure?   Yes " && ml[12..] == "        ";
  }

  /** The line of a fresh Verifier, and of one whose cursor is on "Yes":
      the cursor mark replaces the blank cell just before the label. */
  lemma VerifierLine(action: Option<Action>)
    ensures QueryLine("Sure?", VerifierResponses(action), 11, 16) == "Sure?   Yes>No        "
    ensures QueryLine("Sure?", VerifierResponses(action), 7, 16) == "Sure?  >Yes No        "
  {
    VerifierLabels(action);
    var rs := VerifierResponses(action);
    VerifierCursorCells();
    QueryLineAt("Sure?", rs, 16, "Sure?   Yes", ' ', "No        ");
    QueryLineAt("Sure?", rs, 16, "Sure?  ", ' ', "Yes No        ");
  }

  /** The Verifier line cut at each cursor cell, and the lines with the
      mark in place. */
  lemma VerifierCursorCells()
    ensures "Sure?   Yes No        " == "Sure?   Yes" + [' '] + "No        "
    ensures "Sure?   Yes" + ">" + "No        " == "Sure?   Yes>No        "
    ensures "Sure?   Yes No        " == "Sure?  " + [' '] + "Yes No        "
    ensures "Sure?  " + ">" + "Yes No        " == "Sure?  >Yes No        "
  {
  }

  /** The cursor mark replaces the cell at its position. */
  lemma QueryLineAt(message: string, rs: seq<Response>, blockLength: nat, a: string, c: char, b: string)
    requires SpliceLabels(Overlay(message, blockLength), rs) == a + [c] + b
    ensures QueryLine(message, rs, |a|, blockLength) == a + ">" + b
  {
    var ml := a + [c] + b;
    assert ml[..|a|] == a;
    assert ml[|a| + 1..] == b;
  }

  /** The responses of a Verifier for `action`. */
  function VerifierResponses(action: Option<Action>): (rs: seq<Response>)
    ensures |rs| == 2 && !rs[0].needVerify && !rs[1].needVerify && DistinctPositions(rs)
  {
    [Response("Yes", 7, false, action), Response("No", 11, false, Some(Action("pass")))]
  }

  /** A Query and its Verifier subclass (STELC_Display.py:177-275). */
  class Query {
    const message: string
    const responses: seq<Response>
    const defaultPosition: int
    const up: Option<int>
    const down: Option<int>
    /** Whether this object is a Verifier. */
    const isVerifier: bool
    var position: int
    var selected: Option<Response>
    var active: bool

    predicate Valid() {
      |responses| > 0
    }

    /** `Query(message, responses, defaultResponse, up, down)`.  The default
        response is indexed as Python indexes a list, negative numbers
        counting from the end. */
    constructor (message: string, responses: seq<Response>, defaultResponse: int, up: Option<int>, down: Option<int>)
      requires -|responses| <= defaultResponse < |responses|
      ensures Valid() && !isVerifier
      ensures this.message == message && this.responses == responses && this.up == up && this.down == down
      ensures defaultPosition == responses[if defaultResponse < 0 then defaultResponse + |responses| else defaultResponse].position
      ensures position == defaultPosition && selected == None && !active
    {
      this.message := message;
      this.responses := responses;
      this.defaultPosition :=
        responses[if defaultResponse < 0 then defaultResponse + |responses| else defaultResponse].position;
      this.up := up;
      this.down := down;
      this.isVerifier := false;
      position := defaultPosition;
      selected := None;
      active := false;
    }

    /** `Verifier(action)`: "Sure?" with Yes (carrying `action`) at 7 and No
        at 11, defaulting to No, and already active. */
    constructor Verifier(action: Option<Action>)
      ensures Valid() && isVerifier
      ensures message == "Sure?" && responses == VerifierResponses(action)
      ensures up == None && down == None
      ensures defaultPosition == 11 && position == 11 && selected == None && active
    {
      message := "Sure?";
      responses := VerifierResponses(action);
      defaultPosition := 11;
      up, down := None, None;
      isVerifier := true;
      position := 11;
      selected := None;
      active := true;
    }

    /** `reset()`. */
    method Reset()
      modifies this
      ensures position == defaultPosition && selected == None && !active
    {
      position := defaultPosition;
      selected := None;
      active := false;
    }

    /** `makeVerifier()`: a new active Verifier carrying the selected
        response's action, this query made inactive; with nothing selected
        it raises a string, which Python 2 turns into a TypeError. */
    method MakeVerifier() returns (r: Result<Query>)
      modifies this`active
      ensures r.Ok? <==> selected.Some?
      ensures r.Ok? ==> fresh(r.value) && FreshVerifier(r.value, selected.value.action) && !active
      ensures r.Err? ==> r.error == TypeError && active == old(active)
    {
      if selected.Some? {
        var v := new Query.Verifier(selected.value.action);
        active := false;
        r := Ok(v);
      } else {
        r := Err(TypeError);
      }
    }

    /** `nextPosition()`. */
    method NextPosition()
      requires Valid()
      modifies this`position
      ensures position == responses[NextIndex(responses, old(position))].position
    {
      var pi := 0;
      var ri := 0;
      while ri < |responses|
        invariant 0 <= ri <= |responses|
        invariant pi == match LastMatch(responses[..ri], position) case None => 0 case Some(i) => i + 1
      {
        assert responses[..ri + 1][..ri] == responses[..ri];
        if position == responses[ri].position {
          pi := ri + 1;
        }
        ri := ri + 1;
      }
      assert responses[..ri] == responses;
      if pi >= |responses| {
        pi := 0;
      }
      position := responses[pi].position;
    }

    /** `prevPosition()`. */
    method PrevPosition()
      requires Valid()
      modifies this`position
      ensures position == responses[PrevIndex(responses, old(position))].position
    {
      var pi := 0;
      var ri := 0;
      while ri < |responses|
        invariant 0 <= ri <= |responses|
        invariant pi == match LastMatch(responses[..ri], position) case None => 0 case Some(i) => i - 1
      {
        assert responses[..ri + 1][..ri] == responses[..ri];
        if position == responses[ri].position {
          pi := ri - 1;
        }
        ri := ri + 1;
      }
      assert responses[..ri] == responses;
      if pi < 0 {
        pi := |responses| - 1;
      }
      position := responses[pi].position;
    }

    /** The response loop of the SELECT branch (STELC_Display.py:398-401):
        the last response at the cursor becomes the selection; with none
        there, whatever was selected before stays selected. */
    method SelectAtCursor()
      modifies this`selected
      ensures selected == match LastMatch(responses, position)
                          case None => old(selected)
                          case Some(i) => Some(responses[i])
    {
      var ri := 0;
      while ri < |responses|
        invariant 0 <= ri <= |responses|
        invariant selected == match LastMatch(responses[..ri], position)
                             case None => old(selected)
                             case Some(i) => Some(responses[i])
      {
        assert responses[..ri + 1][..ri] == responses[..ri];
        if position == responses[ri].position {
          selected := Some(responses[ri]);
        }
        ri := ri + 1;
      }
      assert responses[..ri] == responses;
    }

    /** `makeMessage(blockLength)`: the query's line, with the cursor mark
        `>` in cell `position` whenever that cell exists. */
    method MakeMessage(blockLength: nat) returns (line: string)
      ensures line == QueryLine(message, responses, position, blockLength)
    {
      var ml := Overlay(message, blockLength);
      var i := 0;
      while i < |responses|
        invariant 0 <= i <= |responses|
        invariant ml == SpliceLabels(Overlay(message, blockLength), responses[..i])
      {
        assert responses[..i + 1][..i] == responses[..i];
        ml := SliceAssign(ml, responses[i].position + 1, |responses[i].text| + 1, responses[i].text);
        i := i + 1;
      }
      assert responses[..i] == responses;
      line := SliceAssign(ml, position, position + 1, ">");
    }
  }

  // ---------------------------------------------------------------------
  // The query block

  /** The buttons of the key pad, in the order `buttonCheck` polls them. */
  datatype Button = Select | Left | Up | Down | Right

  /** Width of the query line (STELC_Display.py:291). */
  const QUERY_WIDTH := 16

  /** The blank query line `clearMessage` writes. */
  const BLANK_LINE := Spaces(QUERY_WIDTH + 1)

  /** The index of the first active query, or the number of queries when
      none is active: the query the block's loops stop at. */
  ghost function FirstActive(qs: seq<Query>): (i: nat)
    reads set q | q in qs
    ensures i <= |qs| && (i < |qs| ==> qs[i].active)
    ensures forall j :: 0 <= j < i ==> !qs[j].active
  {
    if qs == [] then 0 else if qs[0].active then 0 else 1 + FirstActive(qs[1..])
  }

  /** With one active query in the list, that query is the first active one. */
  lemma {:induction false} FirstActiveIsOnlyActive(qs: seq<Query>, d: Query)
    requires d in qs && d.active && forall q :: q in qs && q != d ==> !q.active
    ensures FirstActive(qs) < |qs| && qs[FirstActive(qs)] == d
  {
    if qs[0] != d {
      assert qs[0] in qs;
      assert forall q :: q in qs[1..] ==> q in qs;
      FirstActiveIsOnlyActive(qs[1..], d);
    }
  }

  /** The state the requests of `update` and the idle timer put the block
      in before any button is looked at (STELC_Display.py:341-358): a later
      request wins over an earlier one. */
  function EnteredState(state: int, idleElapsed: bool, enterIdle: bool, enterProcess: bool, enterQuery: bool): int
  {
    if enterQuery then QUERY
    else if enterProcess then PROCESS
    else if enterIdle then IDLE
    else if state == IDLE && idleElapsed then OFF
    else state
  }

  /** A Verifier as `makeVerifier` creates it for `action`. */
  ghost predicate FreshVerifier(v: Query, action: Option<Action>)
    reads v
  {
    v.isVerifier && v.active && v.message == "Sure?" && v.responses == VerifierResponses(action)
    && v.position == 11 && v.selected == None
  }

  /** The query block (STELC_Display.py:280-470), without the LCD: its state
      machine, the list of queries, and the line it shows. */
  class QueryBlock {
    var queries: seq<Query>
    var defaultQuery: Option<Query>
    var message: string
    var lastPressed: Option<Button>
    var lastState: int
    var saveState: int
    var state: int

    /** Every query the block can reach. */
    ghost function Objects(): set<Query>
      reads this
    {
      (set q | q in queries) + (if defaultQuery.Some? then {defaultQuery.value} else {})
    }

    ghost predicate Valid()
      reads this
    {
      (forall q :: q in queries ==> q.Valid()) && (defaultQuery.Some? ==> defaultQuery.value.Valid())
    }

    /** `QueryBlock(lcd, defaultQuery, *qs)`: the default is looked up only
        when there are queries. */
    constructor (defaultQuery: int, qs: seq<Query>)
      requires forall q :: q in qs ==> q.Valid()
      requires qs != [] ==> -|qs| <= defaultQuery < |qs|
      ensures Valid() && queries == qs
      ensures this.defaultQuery == if qs == [] then None else Some(qs[ListIndex(defaultQuery, |qs|)])
      ensures message == BLANK_LINE && lastPressed == None
      ensures lastState == IDLE && saveState == IDLE && state == IDLE
    {
      queries := qs;
      this.defaultQuery := if qs == [] then None else Some(qs[ListIndex(defaultQuery, |qs|)]);
      message := BLANK_LINE;
      lastPressed := None;
      lastState, saveState, state := IDLE, IDLE, IDLE;
    }

    /** `setDefaultQuery(n)`: an index outside the list raises IndexError. */
    method SetDefaultQuery(n: int) returns (o: Outcome)
      requires Valid()
      modifies this`defaultQuery
      ensures Valid()
      ensures -|queries| <= n < |queries| ==> o == Pass && defaultQuery == Some(queries[ListIndex(n, |queries|)])
      ensures !(-|queries| <= n < |queries|) ==> o == Raise(IndexError) && defaultQuery == old(defaultQuery)
    {
      if -|queries| <= n < |queries| {
        defaultQuery := Some(queries[ListIndex(n, |queries|)]);
        o := Pass;
      } else {
        o := Raise(IndexError);
      }
    }

    /** `addQuery(query, makeDefault)`. */
    method AddQuery(query: Query, makeDefault: bool)
      requires Valid() && query.Valid()
      modifies this`queries, this`defaultQuery
      ensures Valid() && queries == old(queries) + [query]
      ensures defaultQuery == if makeDefault then Some(query) else old(defaultQuery)
    {
      queries := queries + [query];
      if makeDefault {
        defaultQuery := Some(query);
      }
    }

    /** `clearMessage()`. */
    method ClearMessage()
      modifies this`message
      ensures message == BLANK_LINE
    {
      message := BLANK_LINE;
    }

    /** `for q in self.queries: q.active=False`. */
    method DeactivateAll()
      modifies set q | q in queries
      ensures forall q :: q in queries ==> !q.active
      ensures forall q :: q in queries ==> q.position == old(q.position) && q.selected == old(q.selected)
    {
      var i := 0;
      while i < |queries|
        invariant 0 <= i <= |queries|
        invariant forall j :: 0 <= j < i ==> !queries[j].active
        invariant forall q :: q in queries ==> q.position == old(q.position) && q.selected == old(q.selected)
      {
        queries[i].active := false;
        i := i + 1;
      }
    }

    /** `activateDefault()`: with a default query, it is the only active
        one; without one nothing changes. */
    method ActivateDefault()
      modifies Objects()
      ensures defaultQuery.Some? ==>
                defaultQuery.value.active && forall q :: q in queries && q != defaultQuery.value ==> !q.active
      ensures defaultQuery.None? ==> forall q :: q in queries ==> q.active == old(q.active)
      ensures forall q :: q in Objects() ==> q.position == old(q.position) && q.selected == old(q.selected)
    {
      if defaultQuery.Some? {
        DeactivateAll();
        defaultQuery.value.active := true;
      }
    }

    /** `activateQueryNum(n)`: a number inside the list leaves exactly that
        query active; anything else, None included, changes nothing. */
    method ActivateQueryNum(n: Option<int>)
      modifies Objects()
      ensures n.Some? && 0 <= n.value < |queries| ==>
                forall j :: 0 <= j < |queries| ==> (queries[j].active <==> queries[j] == queries[n.value])
      ensures !(n.Some? && 0 <= n.value < |queries|) ==> forall q :: q in Objects() ==> q.active == old(q.active)
      ensures forall q :: q in Objects() ==> q.position == old(q.position) && q.selected == old(q.selected)
    {
      if n.Some? && 0 <= n.value < |queries| {
        DeactivateAll();
        queries[n.value].active := true;
      }
    }

    /** The loop that looks for the active query and breaks at it. */
    method FindActive() returns (i: nat)
      ensures i == FirstActive(queries)
    {
      i := 0;
      while i < |queries| && !queries[i].active
        invariant i <= |queries| && FirstActive(queries[i..]) + i == FirstActive(queries)
      {
        assert queries[i..][1..] == queries[i + 1..];
        i := i + 1;
      }
    }

    /** What SELECT on the active query `q` does: the cursor stays, the
        selection follows `SelectAtCursor`, and then by the selection:
        needing verification, `q` goes inactive and one fresh active
        Verifier for its action is appended; not needing it, the line is
        blanked, `q` goes inactive, a Verifier leaves the list, and the
        action fires; with nothing selected, nothing changes. */
    twostate predicate SelectEffect(q: Query, new fired: Option<Action>)
      reads this, q, Objects()
    {
      q.position == old(q.position) &&
      q.selected == (match LastMatch(q.responses, q.position)
                     case None => old(q.selected)
                     case Some(i) => Some(q.responses[i])) &&
      (q.selected.Some? && q.selected.value.needVerify ==>
         !q.active && fired == None && message == old(message)
         && |queries| == |old(queries)| + 1 && queries[..|old(queries)|] == old(queries)
         && fresh(queries[|old(queries)|]) && FreshVerifier(queries[|old(queries)|], q.selected.value.action)) &&
      (q.selected.Some? && !q.selected.value.needVerify ==>
         !q.active && fired == q.selected.value.action && message == BLANK_LINE
         && q in old(queries)
         && queries == if q.isVerifier then RemoveFirst(old(queries), q) else old(queries)) &&
      (q.selected.None? ==>
         fired == None && q.active == old(q.active) && queries == old(queries) && message == old(message))
    }

    /** SELECT on the active query `q` (STELC_Display.py:396-432).  A
        response that needs verification deactivates `q` and appends a new
        active Verifier for its action; any other selection blanks the line,
        deactivates `q`, takes it out of the list if it is a Verifier, and
        fires its action.  With nothing selected nothing happens. */
    method SelectResponse(q: Query) returns (fired: Option<Action>)
      requires Valid() && q in queries
      modifies this`queries, this`message, q
      ensures Valid() && SelectEffect(q, fired)
    {
      q.SelectAtCursor();
      fired := None;
      if q.selected.Some? && q.selected.value.needVerify {
        q.active := false;
        var v := q.MakeVerifier();
        if v.Ok? {
          queries := queries + [v.value];
        }
      } else if q.selected.Some? {
        ClearMessage();
        q.active := false;
        if q.isVerifier {
          queries := RemoveFirst(queries, q);
        }
        fired := q.selected.value.action;
      }
    }

    /** What a press on the active query `q` does, button by button
        (STELC_Display.py:388-437): RIGHT and LEFT move its cursor, UP and
        DOWN activate the query it names, SELECT is `SelectEffect`.  Only
        SELECT can change the list, the line or fire an action, and no
        press moves another query's cursor or selection; only UP and DOWN
        change which other queries are active. */
    twostate predicate ActivePress(q: Query, b: Button, new fired: Option<Action>)
      requires q.Valid()
      reads this, q, Objects()
    {
      (forall q' :: q' in Objects() && q' != q && old(allocated(q')) ==>
         q'.position == old(q'.position) && q'.selected == old(q'.selected)
         && (b != Up && b != Down ==> q'.active == old(q'.active))) &&
      (b != Select ==> fired == None && queries == old(queries) && message == old(message)
                       && defaultQuery == old(defaultQuery)) &&
      (b == Right ==> q.position == q.responses[NextIndex(q.responses, old(q.position))].position
                      && q.active == old(q.active) && q.selected == old(q.selected)) &&
      (b == Left ==> q.position == q.responses[PrevIndex(q.responses, old(q.position))].position
                     && q.active == old(q.active) && q.selected == old(q.selected)) &&
      (b == Up ==> NumActivated(q.up)) &&
      (b == Down ==> NumActivated(q.down)) &&
      (b == Select ==> SelectEffect(q, fired))
    }

    /** The effect of `activateQueryNum(n)`: it sets the activity flags
        and moves no cursor and no selection. */
    twostate predicate NumActivated(n: Option<int>)
      reads this, Objects()
    {
      (forall q :: q in Objects() && old(allocated(q)) ==>
         q.position == old(q.position) && q.selected == old(q.selected)) &&
      (n.Some? && 0 <= n.value < |queries| ==>
         forall j :: 0 <= j < |queries| ==> (queries[j].active <==> queries[j] == queries[n.value])) &&
      (!(n.Some? && 0 <= n.value < |queries|) ==> forall q :: q in Objects() && old(allocated(q)) ==> q.active == old(q.active))
    }

    /** A new press, by the state the block is in (STELC_Display.py:367-437):
        OFF wakes to IDLE; IDLE and PROCESS bring up the default query in
        QUERY; in QUERY the first active query handles the button, and with
        no active query nothing happens. */
    method HandlePress(b: Button) returns (fired: Option<Action>)
      requires Valid()
      modifies this`state, this`queries, this`message, Objects()
      ensures Valid() && defaultQuery == old(defaultQuery)
      ensures old(state) == OFF ==>
                state == IDLE && fired == None && queries == old(queries) && message == old(message)
                && unchanged(old(Objects()))
      ensures old(state) == IDLE || old(state) == PROCESS ==>
                state == QUERY && fired == None && queries == old(queries) && message == old(message)
                && (defaultQuery.Some? ==>
                      defaultQuery.value.active && forall q :: q in queries && q != defaultQuery.value ==> !q.active)
                && (defaultQuery.None? ==> forall q :: q in queries ==> q.active == old(q.active))
                && (forall q :: q in Objects() ==> q.position == old(q.position) && q.selected == old(q.selected))
      ensures old(state) == QUERY ==> state == QUERY
      ensures old(state) == QUERY && old(FirstActive(queries)) == |old(queries)| ==>
                fired == None && queries == old(queries) && message == old(message) && unchanged(old(Objects()))
      ensures old(state) == QUERY && old(FirstActive(queries)) < |old(queries)| ==>
                old(queries)[old(FirstActive(queries))].Valid() &&
                ActivePress(old(queries)[old(FirstActive(queries))], b, fired)
      ensures old(state) !in {OFF, IDLE, PROCESS, QUERY} ==>
                state == old(state) && fired == None && queries == old(queries) && message == old(message)
                && unchanged(old(Objects()))
    {
      fired := None;
      if state == OFF {
        state := IDLE;
        return;
      }
      if state == PROCESS || state == IDLE {
        ActivateDefault();
        state := QUERY;
        return;
      }
      if state != QUERY {
        return;
      }
      var i := FindActive();
      if i == |queries| {
        return;
      }
      fired := PressActive(queries[i], b);
    }

    /** A press handled by the active query `q`. */
    method PressActive(q: Query, b: Button) returns (fired: Option<Action>)
      requires Valid() && q in queries
      modifies this`queries, this`message, Objects()
      ensures Valid() && defaultQuery == old(defaultQuery) && ActivePress(q, b, fired)
    {
      fired := None;
      match b
      case Right => q.NextPosition();
      case Left => q.PrevPosition();
      case Up => ActivateQueryNum(q.up);
      case Down => ActivateQueryNum(q.down);
      case Select => fired := SelectResponse(q);
    }

    /** The requests and the idle timer (STELC_Display.py:341-358). */
    method EnterRequested(idleElapsed: bool, enterIdle: bool, enterProcess: bool, enterQuery: bool)
      modifies this`lastState, this`state, this`message
      ensures lastState == old(state)
      ensures state == EnteredState(old(state), idleElapsed, enterIdle, enterProcess, enterQuery)
      ensures message == if enterIdle || enterProcess || enterQuery then BLANK_LINE else old(message)
    {
      lastState := state;
      if state == IDLE && idleElapsed {
        state := OFF;
      }
      if enterIdle {
        state := IDLE;
        ClearMessage();
      }
      if enterProcess {
        state := PROCESS;
        ClearMessage();
      }
      if enterQuery {
        state := QUERY;
        ClearMessage();
      }
    }

    /** The line and the state after the buttons (STELC_Display.py:443-464):
        in QUERY the first active query's line is shown, and with none
        active the line is blanked and the block goes back to the state it
        saved, unless that was QUERY too; a change of state since the start
        of the update saves the state it started in. */
    method Refresh()
      modifies this`state, this`saveState, this`message
      ensures old(state) == QUERY && FirstActive(queries) < |queries| ==>
                var q := queries[FirstActive(queries)];
                state == QUERY && message == QueryLine(q.message, q.responses, q.position, QUERY_WIDTH)
      ensures old(state) == QUERY && FirstActive(queries) == |queries| ==>
                message == BLANK_LINE && state == if old(saveState) != QUERY then old(saveState) else QUERY
      ensures old(state) != QUERY ==> state == old(state) && message == old(message)
      ensures saveState == if state != lastState then lastState else old(saveState)
    {
      if state == QUERY {
        ShowQuery();
      }
      if state != lastState {
        saveState := lastState;
      }
    }

    /** The QUERY branch of `Refresh`. */
    method ShowQuery()
      requires state == QUERY
      modifies this`state, this`message
      ensures FirstActive(queries) < |queries| ==>
                var q := queries[FirstActive(queries)];
                state == QUERY && message == QueryLine(q.message, q.responses, q.position, QUERY_WIDTH)
      ensures FirstActive(queries) == |queries| ==>
                message == BLANK_LINE && state == if saveState != QUERY then saveState else QUERY
    {
      var i := FindActive();
      if i < |queries| {
        message := queries[i].MakeMessage(QUERY_WIDTH);
        return;
      }
      ClearMessage();
      if saveState != QUERY {
        state := saveState;
      }
    }

    /** `update(enterIdleState, enterProcessState, enterQueryState)` with
        this poll's button reading: only a reading that differs from the
        last one counts as a press, and the reading is remembered whatever
        happens.  Returns the new state and the action a selection fired. */
    method Update(enterIdle: bool, enterProcess: bool, enterQuery: bool, idleElapsed: bool, pressed: Option<Button>)
      returns (st: int, fired: Option<Action>)
      requires Valid()
      modifies this, Objects()
      ensures Valid() && st == state && lastPressed == pressed && lastState == old(state)
      ensures defaultQuery == old(defaultQuery)
      ensures saveState == if state != old(state) then old(state) else old(saveState)
      ensures !(pressed.Some? && pressed != old(lastPressed)) ==>
                fired == None && queries == old(queries) && unchanged(old(Objects()))
      ensures var e := EnteredState(old(state), idleElapsed, enterIdle, enterProcess, enterQuery);
              e == OFF && pressed.Some? && pressed != old(lastPressed) ==>
                state == IDLE && fired == None && queries == old(queries) && message == old(message)
      ensures var e := EnteredState(old(state), idleElapsed, enterIdle, enterProcess, enterQuery);
              e != QUERY && !(pressed.Some? && pressed != old(lastPressed)) ==>
                state == e && message == if enterIdle || enterProcess || enterQuery then BLANK_LINE else old(message)
      ensures var e := EnteredState(old(state), idleElapsed, enterIdle, enterProcess, enterQuery);
              e == QUERY && !(pressed.Some? && pressed != old(lastPressed)) && FirstActive(queries) < |queries| ==>
                var q := queries[FirstActive(queries)];
                state == QUERY && message == QueryLine(q.message, q.responses, q.position, QUERY_WIDTH)
      ensures var e := EnteredState(old(state), idleElapsed, enterIdle, enterProcess, enterQuery);
              e == QUERY && !(pressed.Some? && pressed != old(lastPressed)) && FirstActive(queries) == |queries| ==>
                message == BLANK_LINE && state == if old(saveState) != QUERY then old(saveState) else QUERY
      ensures var e := EnteredState(old(state), idleElapsed, enterIdle, enterProcess, enterQuery);
              (e == IDLE || e == PROCESS) && pressed.Some? && pressed != old(lastPressed)
              && defaultQuery.Some? && defaultQuery.value in queries ==>
                state == QUERY && defaultQuery.value.active
                && (forall q :: q in queries && q != defaultQuery.value ==> !q.active)
                && message == QueryLine(defaultQuery.value.message, defaultQuery.value.responses,
                                        defaultQuery.value.position, QUERY_WIDTH)
    {
      EnterRequested(idleElapsed, enterIdle, enterProcess, enterQuery);
      var isPress := pressed.Some? && lastPressed != pressed;
      lastPressed := pressed;
      if isPress {
        fired := PressThenRefresh(pressed.value);
      } else {
        fired := None;
        Refresh();
      }
      st := state;
    }

    /** A new press followed by `Refresh`, the part of `Update` after the
        requests when the reading counts as a press. */
    method PressThenRefresh(b: Button) returns (fired: Option<Action>)
      requires Valid()
      modifies this`state, this`queries, this`message, this`saveState, Objects()
      ensures Valid() && defaultQuery == old(defaultQuery)
      ensures saveState == if state != lastState then lastState else old(saveState)
      ensures old(state) == OFF ==>
                state == IDLE && fired == None && queries == old(queries) && message == old(message)
      ensures (old(state) == IDLE || old(state) == PROCESS) && defaultQuery.Some? && defaultQuery.value in queries ==>
                state == QUERY && defaultQuery.value.active
                && (forall q :: q in queries && q != defaultQuery.value ==> !q.active)
                && message == QueryLine(defaultQuery.value.message, defaultQuery.value.responses,
                                        defaultQuery.value.position, QUERY_WIDTH)
    {
      ghost var s0 := state;
      fired := HandlePress(b);
      if (s0 == IDLE || s0 == PROCESS) && defaultQuery.Some? && defaultQuery.value in queries {
        FirstActiveIsOnlyActive(queries, defaultQuery.value);
      }
      Refresh();
    }
  }
}
