/** The raffle session as a state machine over values: the spin guard, one
    animation frame (a flicker or the completion of the draw), reset, and the
    export/import of the drawn history and the remaining pool. */
module Session {
  import opened Wrappers
  import opened Pool
  import opened Tickets

  /** One drawn ticket with the locale-formatted time it was drawn at. */
  datatype HistoryEntry = HistoryEntry(number: string, time: string)

  /** The state the drawing screen keeps: the undrawn pool, the winners
      (newest first), whether a spin is running, the number on display and
      the winner of the last completed spin. */
  datatype State = State(
    numbers: seq<string>,
    history: seq<HistoryEntry>,
    isSpinning: bool,
    displayNumber: string,
    winner: Option<string>)

  /** An imported file after parsing: either not parseable at all, or a record
      whose two fields may each be missing (or falsy). */
  datatype Document =
    | Malformed
    | Parsed(history: Option<seq<HistoryEntry>>, remainingNumbers: Option<seq<string>>)

  /** Length of the spin animation, in milliseconds. */
  const SpinDuration: int := 3000

  /** The number shown before the first spin and after a reset. */
  const InitialDisplay: string := "10001"

  /** The state the screen opens in: the full pool, nothing drawn, and a spin
      allowed. */
  function Initial(): (s: State)
    ensures CanSpin(s) && |s.numbers| == PoolSize
    ensures s.history == [] && s.winner == None
  {
    State(InitialPool(), [], false, InitialDisplay, None)
  }

  /** A spin may start only when none is running and the pool is not empty. */
  predicate CanSpin(s: State)
    ensures CanSpin(s) ==> s.numbers != [] && !s.isSpinning
  {
    !s.isSpinning && 0 < |s.numbers|
  }

  /** The spin button: refused (no change at all) while a spin runs or when the
      pool is empty; otherwise marks the spin as running and clears the winner. */
  function SpinRequest(s: State): (r: State)
    ensures r.numbers == s.numbers && r.history == s.history
    ensures r.displayNumber == s.displayNumber
    ensures r == s <==> s.isSpinning || |s.numbers| == 0
    ensures r != s ==> r.isSpinning && r.winner == None
  {
    if s.isSpinning || |s.numbers| == 0 then s
    else s.(isSpinning := true, winner := None)
  }

  /** The whole spin handler: the guard, then the first animation frame, which
      the handler runs itself right after the spin started (elapsed time 0,
      so it is a flicker frame). */
  function StartSpin(s: State, rand: real): (r: State)
    requires 0.0 <= rand < 1.0
    ensures r.numbers == s.numbers && r.history == s.history
    ensures r == s <==> !CanSpin(s)
    ensures CanSpin(s) ==> r.isSpinning && r.winner == None && r.displayNumber in s.numbers
  {
    if CanSpin(s) then FlickerFrame(SpinRequest(s), rand) else s
  }

  /** `Math.min(elapsed / SpinDuration, 1)`. */
  function Progress(elapsed: int): (p: real)
    ensures p <= 1.0
    ensures 0 <= elapsed ==> 0.0 <= p
    ensures p < 1.0 <==> elapsed < SpinDuration
  {
    var q := elapsed as real / SpinDuration as real;
    if q <= 1.0 then q else 1.0
  }

  /** An animation frame before the end: shows a random ticket of the pool and
      changes nothing else. */
  function FlickerFrame(s: State, rand: real): (r: State)
    requires 0 < |s.numbers| && 0.0 <= rand < 1.0
    ensures r.numbers == s.numbers && r.history == s.history
    ensures r.isSpinning == s.isSpinning && r.winner == s.winner
    ensures r.displayNumber in s.numbers
  {
    s.(displayNumber := s.numbers[RandomIndex(rand, |s.numbers|)])
  }

  /** The last animation frame: the ticket at the random index wins, is shown,
      recorded at the front of the history and filtered out of the pool, and
      the spin ends. */
  function CompleteDraw(s: State, rand: real, time: string): (r: State)
    requires 0 < |s.numbers| && 0.0 <= rand < 1.0
    ensures |r.numbers| == |s.numbers| - 1
    ensures multiset(r.numbers) + multiset{r.displayNumber} == multiset(s.numbers)
    ensures |r.history| == |s.history| + 1 && r.history[1..] == s.history
    ensures r.history[0] == HistoryEntry(r.displayNumber, time)
    ensures r.winner == Some(r.displayNumber) && !r.isSpinning
  {
    var winnerIndex := RandomIndex(rand, |s.numbers|);
    var winningNumber := s.numbers[winnerIndex];
    RemoveAtFacts(s.numbers, winnerIndex);
    State(
      RemoveAt(s.numbers, winnerIndex),
      [HistoryEntry(winningNumber, time)] + s.history,
      false,
      winningNumber,
      Some(winningNumber))
  }

  /** The winner is the pool element at the random index and the new pool is
      the old one with exactly that position cut out, the others in order. */
  lemma CompleteDrawCutsWinner(s: State, rand: real, time: string)
    requires 0 < |s.numbers| && 0.0 <= rand < 1.0
    ensures var w := RandomIndex(rand, |s.numbers|);
      CompleteDraw(s, rand, time).displayNumber == s.numbers[w] &&
      CompleteDraw(s, rand, time).numbers == s.numbers[..w] + s.numbers[w + 1..]
  {
    RemoveAtIsSlice(s.numbers, RandomIndex(rand, |s.numbers|));
  }

  /** Drawing from a duplicate-free pool removes the winner for good and keeps
      the pool duplicate-free. */
  lemma CompleteDrawWithoutReplacement(s: State, rand: real, time: string)
    requires 0 < |s.numbers| && 0.0 <= rand < 1.0 && Distinct(s.numbers)
    ensures CompleteDraw(s, rand, time).displayNumber in s.numbers
    ensures CompleteDraw(s, rand, time).displayNumber !in CompleteDraw(s, rand, time).numbers
    ensures Distinct(CompleteDraw(s, rand, time).numbers)
    ensures forall x :: x in CompleteDraw(s, rand, time).numbers ==> x in s.numbers
  {
    RemoveAtDistinct(s.numbers, RandomIndex(rand, |s.numbers|));
  }

  /** One run of the animation callback, `elapsed` milliseconds after the spin
      started: a flicker frame while the progress is below 1, the draw
      completion once it reaches 1. */
  function AnimationFrame(s: State, elapsed: int, rand: real, time: string): (r: State)
    requires 0 < |s.numbers| && 0.0 <= rand < 1.0
    ensures elapsed < SpinDuration ==> r.numbers == s.numbers && r.history == s.history && r.isSpinning == s.isSpinning
    ensures SpinDuration <= elapsed ==> |r.numbers| == |s.numbers| - 1 && !r.isSpinning
  {
    if Progress(elapsed) < 1.0 then FlickerFrame(s, rand) else CompleteDraw(s, rand, time)
  }

  /** A flicker frame shown during a spin has no influence on its outcome. */
  lemma FlickerDoesNotAffectDraw(s: State, flicker: real, rand: real, time: string)
    requires 0 < |s.numbers| && 0.0 <= flicker < 1.0 && 0.0 <= rand < 1.0
    ensures CompleteDraw(FlickerFrame(s, flicker), rand, time) == CompleteDraw(s, rand, time)
  {
  }

  /** Successive flicker frames, one per random fraction. */
  function FlickerFrames(s: State, flickers: seq<real>): (r: State)
    requires 0 < |s.numbers| && Fractions(flickers)
    ensures r.numbers == s.numbers && r.history == s.history
    ensures r.isSpinning == s.isSpinning && r.winner == s.winner
    ensures flickers != [] ==> r.displayNumber in s.numbers
    decreases |flickers|
  {
    if flickers == [] then s
    else FlickerFrames(FlickerFrame(s, flickers[0]), flickers[1..])
  }

  /** However many flicker frames a spin shows, its outcome is the same. */
  lemma {:induction false} FlickersDoNotAffectDraw(s: State, flickers: seq<real>, rand: real, time: string)
    requires 0 < |s.numbers| && Fractions(flickers) && 0.0 <= rand < 1.0
    ensures CompleteDraw(FlickerFrames(s, flickers), rand, time) == CompleteDraw(s, rand, time)
    decreases |flickers|
  {
    if flickers != [] {
      var s' := FlickerFrame(s, flickers[0]);
      FlickersDoNotAffectDraw(s', flickers[1..], rand, time);
      FlickerDoesNotAffectDraw(s, flickers[0], rand, time);
    }
  }

  /** The reset button: the full pool, an empty history, the initial display
      and no winner. A running spin is not stopped. */
  function Reset(s: State): (r: State)
    ensures |r.numbers| == PoolSize && r.history == [] && r.winner == None
    ensures r.isSpinning == s.isSpinning
  {
    State(InitialPool(), [], s.isSpinning, InitialDisplay, None)
  }

  /** Whatever the prior state, reset yields the full initial pool (10000
      ascending, duplicate-free tickets from "10001" to "20000", see
      InitialPoolValues, InitialPoolEnds and InitialPoolAscending) and an
      empty history. */
  lemma ResetRestoresFullPool(s: State)
    ensures Reset(s).numbers == InitialPool() && Reset(s).history == []
    ensures |Reset(s).numbers| == 10000 && Distinct(Reset(s).numbers)
  {
    InitialPoolAscending();
  }

  /** Reset forgets everything but whether a spin is running, so applying it
      twice is applying it once, and from an idle state it is the start state. */
  lemma ResetIdempotent(s: State, t: State)
    ensures Reset(Reset(s)) == Reset(s)
    ensures s.isSpinning == t.isSpinning ==> Reset(s) == Reset(t)
    ensures !s.isSpinning ==> Reset(s) == Initial()
  {
  }

  /** The export file: the history in its current order and the remaining pool. */
  function Export(s: State): (d: Document)
    ensures d.Parsed? && d.history.Some? && d.remainingNumbers.Some?
  {
    Parsed(Some(s.history), Some(s.numbers))
  }

  /** Loading a file: an unparseable one changes nothing; otherwise each field
      that is present replaces its part of the state verbatim. */
  function Import(s: State, doc: Document): (r: State)
    ensures r == s.(numbers := r.numbers, history := r.history)
  {
    match doc
    case Malformed => s
    case Parsed(history, remainingNumbers) =>
      var s' := if history.Some? then s.(history := history.value) else s;
      if remainingNumbers.Some? then s'.(numbers := remainingNumbers.value) else s'
  }

  /** Whether loading the file shows the invalid-file alert. */
  predicate ImportRejected(doc: Document)
    ensures ImportRejected(doc) <==> !doc.Parsed?
  {
    doc.Malformed?
  }

  /** A malformed file leaves the whole state as it was. */
  lemma ImportMalformedIsNoOp(s: State)
    ensures ImportRejected(Malformed) && Import(s, Malformed) == s
  {
  }

  /** Each present field replaces exactly its own part of the state; a missing
      field leaves its part alone. */
  lemma ImportReplacesPresentFields(s: State, doc: Document)
    requires doc.Parsed?
    ensures !ImportRejected(doc)
    ensures Import(s, doc).history == if doc.history.Some? then doc.history.value else s.history
    ensures Import(s, doc).numbers ==
      if doc.remainingNumbers.Some? then doc.remainingNumbers.value else s.numbers
  {
  }

  /** Importing an exported file restores the exported pool and history exactly,
      whatever the state it is loaded into. */
  lemma ExportImportRoundTrip(s: State, t: State)
    ensures Import(t, Export(s)).numbers == s.numbers
    ensures Import(t, Export(s)).history == s.history
    ensures Import(s, Export(s)) == s
  {
  }

  /** The pool is replaced verbatim: an imported pool may hold repeated or
      out-of-range tickets. */
  lemma ImportDoesNotValidate(s: State)
    ensures !Distinct(Import(s, Parsed(None, Some(["10001", "10001"]))).numbers)
    ensures Import(s, Parsed(None, Some(["99999"]))).numbers == ["99999"]
  {
    var p := Import(s, Parsed(None, Some(["10001", "10001"]))).numbers;
    assert p[0] == p[1];
  }

  /** Two spins from an idle, duplicate-free pool: the pool loses two
      tickets, the history gains the two winners newest first, and they are
      two different tickets of the pool. */
  lemma TwoSpins(s: State, f1: real, f2: real, r1: real, r2: real, t1: string, t2: string)
    requires CanSpin(s) && 2 <= |s.numbers| && Distinct(s.numbers)
    requires 0.0 <= f1 < 1.0 && 0.0 <= f2 < 1.0 && 0.0 <= r1 < 1.0 && 0.0 <= r2 < 1.0
    ensures var s1 := CompleteDraw(StartSpin(s, f1), r1, t1);
      var s2 := CompleteDraw(StartSpin(s1, f2), r2, t2);
      |s1.numbers| == |s.numbers| - 1 && s1.history == [HistoryEntry(s1.displayNumber, t1)] + s.history &&
      |s2.numbers| == |s.numbers| - 2 &&
      s2.history == [HistoryEntry(s2.displayNumber, t2), HistoryEntry(s1.displayNumber, t1)] + s.history &&
      s1.displayNumber != s2.displayNumber &&
      s1.displayNumber in s.numbers && s2.displayNumber in s.numbers
  {
    var s0 := StartSpin(s, f1);
    var s1 := CompleteDraw(s0, r1, t1);
    CompleteDrawWithoutReplacement(s0, r1, t1);
    assert s1.history == [HistoryEntry(s1.displayNumber, t1)] + s.history;
    var s1' := StartSpin(s1, f2);
    var s2 := CompleteDraw(s1', r2, t2);
    CompleteDrawWithoutReplacement(s1', r2, t2);
    assert s2.history == [HistoryEntry(s2.displayNumber, t2)] + s1.history;
  }

  /** The outcome of one full spin: the guard followed by the final frame.
      The flicker frames before it, the one the handler runs included, do not
      change the outcome (see SpinOutcome). */
  function DrawRound(s: State, rand: real, time: string): (r: State)
    requires CanSpin(s) && 0.0 <= rand < 1.0
    ensures |r.numbers| == |s.numbers| - 1 && !r.isSpinning
  {
    CompleteDraw(SpinRequest(s), rand, time)
  }

  /** Any actual spin (the handler with its first frame, any number of
      further flicker frames, then the final frame) ends in DrawRound. */
  lemma SpinOutcome(s: State, first: real, flickers: seq<real>, rand: real, time: string)
    requires CanSpin(s) && 0.0 <= first < 1.0 && Fractions(flickers) && 0.0 <= rand < 1.0
    ensures CompleteDraw(FlickerFrames(StartSpin(s, first), flickers), rand, time) == DrawRound(s, rand, time)
  {
    FlickersDoNotAffectDraw(StartSpin(s, first), flickers, rand, time);
    FlickerDoesNotAffectDraw(SpinRequest(s), first, rand, time);
  }

  predicate Fractions(rands: seq<real>) {
    forall i :: 0 <= i < |rands| ==> 0.0 <= rands[i] < 1.0
  }

  /** Successive spins from an idle state, one per random fraction and time. */
  function Draws(s: State, rands: seq<real>, times: seq<string>): (r: State)
    requires !s.isSpinning && Fractions(rands) && |times| == |rands| <= |s.numbers|
    ensures |r.numbers| == |s.numbers| - |rands| && !r.isSpinning
    ensures |r.history| == |s.history| + |rands| && r.history[|rands|..] == s.history
    decreases |rands|
  {
    if rands == [] then s
    else Draws(DrawRound(s, rands[0], times[0]), rands[1..], times[1..])
  }

  /** The ticket numbers of some history entries, in the same order. */
  function Winners(h: seq<HistoryEntry>): (w: seq<string>)
    ensures |w| == |h|
  {
    seq(|h|, i requires 0 <= i < |h| => h[i].number)
  }

  /** Taking one more entry of a history takes one more winner. */
  lemma WinnersExtend(h: seq<HistoryEntry>, n: nat)
    requires 0 < n <= |h|
    ensures Winners(h[..n]) == Winners(h[..n - 1]) + [h[n - 1].number]
  {
  }

  /** After N spins the history has grown by N new entries at its front
      (newest first) above the untouched older ones, and the new winners
      together with the remaining pool are exactly the starting pool. */
  lemma {:induction false} DrawsAccount(s: State, rands: seq<real>, times: seq<string>)
    requires !s.isSpinning && Fractions(rands) && |times| == |rands| <= |s.numbers|
    ensures var r := Draws(s, rands, times);
      multiset(Winners(r.history[..|rands|]) + r.numbers) == multiset(s.numbers)
    decreases |rands|
  {
    if rands != [] {
      var n := |rands|;
      var s1 := DrawRound(s, rands[0], times[0]);
      var r := Draws(s1, rands[1..], times[1..]);
      assert r == Draws(s, rands, times);
      DrawsAccount(s1, rands[1..], times[1..]);
      assert r.history[n - 1] == s1.history[0];
      WinnersExtend(r.history, n);
      var w := Winners(r.history[..n - 1]);
      assert Winners(r.history[..n]) + r.numbers == w + [s1.displayNumber] + r.numbers;
      assert multiset(w + [s1.displayNumber] + r.numbers) == multiset(w + r.numbers) + multiset{s1.displayNumber};
    }
  }

  /** N successive spins from a duplicate-free pool draw N distinct tickets,
      all from the starting pool and none of them left in the final pool. */
  lemma DrawsWithoutReplacement(s: State, rands: seq<real>, times: seq<string>)
    requires !s.isSpinning && Fractions(rands) && |times| == |rands| <= |s.numbers|
    requires Distinct(s.numbers)
    ensures var r := Draws(s, rands, times); var w := Winners(r.history[..|rands|]);
      Distinct(w) &&
      (forall x :: x in w ==> x in s.numbers && x !in r.numbers)
  {
    var r := Draws(s, rands, times);
    DrawsAccount(s, rands, times);
    SplitOfDistinct(Winners(r.history[..|rands|]), r.numbers, s.numbers);
  }
}
