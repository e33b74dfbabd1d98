/** The drawing screen's session object: the state it keeps and the event
    handlers that update it, each proved to perform the matching transition
    of the Session state machine. */
module App {
  import opened Wrappers
  import opened Pool
  import opened Tickets
  import opened Session

  class SpinWheel {
    var numbers: seq<string>
    var history: seq<HistoryEntry>
    var isSpinning: bool
    var displayNumber: string
    var winner: Option<string>

    /** The abstract value of the session. */
    ghost function Model(): State
      reads this
    {
      State(numbers, history, isSpinning, displayNumber, winner)
    }

    /** The screen as it first appears: the full pool, nothing drawn. */
    constructor ()
      ensures Model() == Initial()
    {
      var nums := BuildPool();
      numbers := nums;
      history := [];
      isSpinning := false;
      displayNumber := InitialDisplay;
      winner := None;
    }

    /** The spin button. Returns whether the spin started. When it did, the
        handler has already run the first frame of the animation itself (at
        elapsed time 0, so a flicker frame with `rand` as the value of
        `Math.random()`), and the caller runs AnimateNumbers once per later
        frame until it reports the end. */
    method Spin(rand: real) returns (started: bool)
      requires 0.0 <= rand < 1.0
      modifies this
      ensures started == CanSpin(old(Model()))
      ensures Model() == StartSpin(old(Model()), rand)
    {
      if isSpinning || |numbers| == 0 {
        return false;
      }
      isSpinning := true;
      winner := None;
      started := true;
      var finished := AnimateNumbers(0, rand, "");
    }

    /** One frame of the spin, `elapsed` milliseconds after it started, with
        `rand` the value `Math.random()` returns in that frame and `time` the
        clock reading used if the draw completes. Returns whether it did. */
    method AnimateNumbers(elapsed: int, rand: real, time: string) returns (finished: bool)
      requires isSpinning && 0 < |numbers| && 0.0 <= rand < 1.0
      modifies this
      ensures finished == (SpinDuration <= elapsed)
      ensures Model() == AnimationFrame(old(Model()), elapsed, rand, time)
    {
      var progress := Progress(elapsed);
      if progress < 1.0 {
        var randomIndex := RandomIndex(rand, |numbers|);
        displayNumber := numbers[randomIndex];
        finished := false;
      } else {
        var winnerIndex := RandomIndex(rand, |numbers|);
        var winningNumber := numbers[winnerIndex];
        displayNumber := winningNumber;
        winner := Some(winningNumber);
        history := [HistoryEntry(winningNumber, time)] + history;
        numbers := RemoveAt(numbers, winnerIndex);
        isSpinning := false;
        finished := true;
      }
    }

    /** The reset button. */
    method ResetNumbers()
      modifies this
      ensures Model() == Reset(old(Model()))
    {
      var nums := BuildPool();
      numbers := nums;
      history := [];
      displayNumber := InitialDisplay;
      winner := None;
    }

    /** The export button: the document written to the download file. */
    method ExportHistory() returns (doc: Document)
      ensures doc == Export(Model())
      ensures Import(Model(), doc) == Model()
    {
      doc := Parsed(Some(history), Some(numbers));
    }

    /** Loading a chosen file. Returns false when the invalid-file alert is
        shown, in which case nothing has changed. */
    method ImportHistory(doc: Document) returns (accepted: bool)
      modifies this
      ensures accepted == !ImportRejected(doc)
      ensures Model() == Import(old(Model()), doc)
    {
      match doc
      case Malformed =>
        accepted := false;
      case Parsed(h, n) =>
        if h.Some? {
          history := h.value;
        }
        if n.Some? {
          numbers := n.value;
        }
        accepted := true;
    }
  }

  /** Start fresh and spin twice, the first spin showing one more flicker
      frame after the handler's own: 9998 tickets remain, the history holds
      the two winners newest first, and they are two different tickets from
      the initial pool. */
  method TwoDrawScenario(f1: real, g: real, r1: real, f2: real, r2: real, t1: string, t2: string)
    returns (first: string, second: string, remaining: nat, logged: seq<HistoryEntry>)
    requires 0.0 <= f1 < 1.0 && 0.0 <= g < 1.0 && 0.0 <= r1 < 1.0
    requires 0.0 <= f2 < 1.0 && 0.0 <= r2 < 1.0
    ensures remaining == 9998
    ensures logged == [HistoryEntry(second, t2), HistoryEntry(first, t1)]
    ensures first != second && first in InitialPool() && second in InitialPool()
  {
    var wheel := new SpinWheel();
    var started := wheel.Spin(f1);
    ghost var s1 := wheel.Model();
    var done := wheel.AnimateNumbers(16, g, t1);
    done := wheel.AnimateNumbers(SpinDuration, r1, t1);
    ghost var s2 := wheel.Model();
    assert s2 == CompleteDraw(FlickerFrame(s1, g), r1, t1);
    FlickerDoesNotAffectDraw(s1, g, r1, t1);
    first := wheel.displayNumber;
    started := wheel.Spin(f2);
    done := wheel.AnimateNumbers(SpinDuration + 16, r2, t2);
    assert wheel.Model() == CompleteDraw(StartSpin(s2, f2), r2, t2);
    InitialPoolAscending();
    TwoSpins(Initial(), f1, f2, r1, r2, t1, t2);
    second := wheel.displayNumber;
    remaining := |wheel.numbers|;
    logged := wheel.history;
  }
}
