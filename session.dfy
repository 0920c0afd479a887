/**
  The bingo draw session of App.tsx: five pieces of state, a draw that
  rejection-samples a ball not yet drawn from 1..90, and a reset.

  The pure part (the range, the candidate formula, the invariant the two
  lists keep and the facts about it) comes first; the class DrawSession
  holds the state and the two handlers.
 */
module Session {
  import opened Wrappers
  import opened Sorting

  /** The highest ball number; balls are drawn from 1..PoolSize. */
  const PoolSize: nat := 90

  /** The message shown when every ball has been drawn. */
  const ExhaustedMessage: string := "Bingo! Todos os números de 1 a 90 já foram sorteados."

  predicate InRange(v: int) {
    1 <= v <= PoolSize
  }

  /** A value of Math.random(): a number in [0, 1). */
  predicate IsSample(r: real) {
    0.0 <= r < 1.0
  }

  predicate AreSamples(randoms: seq<real>) {
    forall i :: 0 <= i < |randoms| ==> IsSample(randoms[i])
  }

  /** The ball `Math.floor(r * 90) + 1` for the random sample `r`. */
  function Candidate(r: real): (v: int)
    requires IsSample(r)
    ensures InRange(v)
  {
    (r * PoolSize as real).Floor + 1
  }

  /** Every ball is the candidate of some sample, so no ball is out of
      reach of the rejection loop. */
  function SampleFor(v: int): (r: real)
    requires InRange(v)
    ensures IsSample(r) && Candidate(r) == v
  {
    var r := (v - 1) as real / PoolSize as real;
    assert r * PoolSize as real == (v - 1) as real;
    r
  }

  /** The position of the first sample whose candidate is not in `drawn`,
      that is, the iteration at which the do-while loop stops. */
  function FirstFresh(randoms: seq<real>, drawn: seq<int>): (k: Option<nat>)
    requires AreSamples(randoms)
    ensures k.Some? ==> k.value < |randoms| && Candidate(randoms[k.value]) !in drawn
    ensures k.Some? ==> forall j :: 0 <= j < k.value ==> Candidate(randoms[j]) in drawn
    ensures k.None? ==> forall j :: 0 <= j < |randoms| ==> Candidate(randoms[j]) in drawn
  {
    if randoms == [] then None
    else if Candidate(randoms[0]) !in drawn then Some(0)
    else match FirstFresh(randoms[1..], drawn)
      case None => None
      case Some(k) => Some(k + 1)
  }

  predicate NoDuplicates(s: seq<int>) {
    forall i, j :: 0 <= i < j < |s| ==> s[i] != s[j]
  }

  /** What the sorted list `drawn` and the draw-order list `history` keep
      between draws: at most 90 distinct balls from 1..90, and `drawn` is
      `history` in ascending order. */
  predicate Consistent(drawn: seq<int>, history: seq<int>) {
    && |history| <= PoolSize
    && (forall i :: 0 <= i < |history| ==> InRange(history[i]))
    && NoDuplicates(history)
    && Sorted(drawn)
    && multiset(drawn) == multiset(history)
  }

  /** A sequence without duplicates has one multiset entry per element. */
  lemma {:induction false} NoDuplicatesCount(s: seq<int>, v: int)
    requires NoDuplicates(s)
    ensures multiset(s)[v] <= 1
  {
    if s != [] {
      var init := s[..|s| - 1];
      assert s == init + [s[|s| - 1]];
      assert NoDuplicates(init);
      NoDuplicatesCount(init, v);
      assert s[|s| - 1] !in init;
    }
  }

  /** A sequence with at most one multiset entry per element has no duplicates. */
  lemma CountNoDuplicates(s: seq<int>)
    requires forall v :: multiset(s)[v] <= 1
    ensures NoDuplicates(s)
  {
    forall i, j | 0 <= i < j < |s| ensures s[i] != s[j] {
      assert s == s[..i] + [s[i]] + s[i + 1..j] + [s[j]] + s[j + 1..];
      assert multiset(s)[s[i]] >= multiset([s[i]] + [s[j]])[s[i]];
    }
  }

  /** The consequences of the invariant that the session's readers rely on:
      equal lengths, the same balls in both lists, no ball twice, every ball
      in range. */
  lemma ConsistentFacts(drawn: seq<int>, history: seq<int>)
    requires Consistent(drawn, history)
    ensures |drawn| == |history| <= PoolSize
    ensures forall v :: v in drawn <==> v in history
    ensures NoDuplicates(drawn)
    ensures forall i :: 0 <= i < |drawn| ==> InRange(drawn[i])
  {
    assert |drawn| == |multiset(drawn)| == |multiset(history)| == |history|;
    forall v ensures v in drawn <==> v in history {
      assert v in drawn <==> v in multiset(drawn);
      assert v in history <==> v in multiset(history);
    }
    forall v ensures multiset(drawn)[v] <= 1 {
      NoDuplicatesCount(history, v);
    }
    CountNoDuplicates(drawn);
    forall i | 0 <= i < |drawn| ensures InRange(drawn[i]) {
      assert drawn[i] in history;
    }
  }

  /** Appending a value not yet present keeps a sequence duplicate-free. */
  lemma AppendFresh(s: seq<int>, v: int)
    requires NoDuplicates(s) && v !in s
    ensures NoDuplicates(s + [v])
  {
    var t := s + [v];
    forall i, j | 0 <= i < j < |t| ensures t[i] != t[j] {
      if j == |s| {
        assert t[i] == s[i];
      }
    }
  }

  /** One successful draw keeps the invariant: the history gains the new
      ball at its end and the drawn list is the old one plus the ball,
      sorted again. */
  lemma DrawKeepsConsistent(drawn: seq<int>, history: seq<int>, v: int)
    requires Consistent(drawn, history)
    requires |drawn| < PoolSize && InRange(v) && v !in drawn
    ensures Consistent(Sort(drawn + [v]), history + [v])
  {
    assert |history| == |multiset(history)| == |multiset(drawn)| == |drawn|;
    assert v !in history by {
      assert v !in multiset(drawn);
    }
    AppendFresh(history, v);
    var h := history + [v];
    assert multiset(h) == multiset(history) + multiset{v};
    assert multiset(drawn + [v]) == multiset(drawn) + multiset{v};
    assert forall i :: 0 <= i < |h| ==> InRange(h[i]);
  }

  /** The balls 1..n as a set. */
  function Balls(n: nat): (s: set<int>)
    ensures |s| == n
    ensures forall v :: v in s <==> 1 <= v <= n
  {
    if n == 0 then {} else Balls(n - 1) + {n}
  }

  /** The elements of a duplicate-free sequence are as many as its length. */
  lemma {:induction false} DistinctElements(s: seq<int>)
    requires NoDuplicates(s)
    ensures |set v | v in s| == |s|
  {
    if s != [] {
      var init := s[..|s| - 1];
      assert NoDuplicates(init);
      DistinctElements(init);
      assert s == init + [s[|s| - 1]];
      assert (set v | v in s) == (set v | v in init) + {s[|s| - 1]};
      assert s[|s| - 1] !in init;
    }
  }

  /** A subset is no larger than its superset. */
  lemma SubsetNoLarger(a: set<int>, b: set<int>)
    requires a <= b
    ensures |a| <= |b|
  {
    assert b == a + (b - a);
  }

  /** While fewer than 90 balls are out, some ball of 1..90 is still in the
      pool, so the rejection loop has a candidate that ends it. */
  lemma PoolNotEmpty(drawn: seq<int>, history: seq<int>)
    requires Consistent(drawn, history)
    requires |drawn| < PoolSize
    ensures exists v :: InRange(v) && v !in drawn
  {
    ConsistentFacts(drawn, history);
    var seen := set v | v in history;
    DistinctElements(history);
    if forall v :: InRange(v) ==> v in drawn {
      SubsetNoLarger(Balls(PoolSize), seen);
      assert false;
    }
  }

  /** While the pool is not empty some value of Math.random() ends the
      rejection loop at its first iteration. */
  lemma LoopCanEnd(drawn: seq<int>, history: seq<int>)
    requires Consistent(drawn, history)
    requires |drawn| < PoolSize
    ensures exists r :: IsSample(r) && FirstFresh([r], drawn) == Some(0)
  {
    PoolNotEmpty(drawn, history);
    var v :| InRange(v) && v !in drawn;
    var r := SampleFor(v);
    assert FirstFresh([r], drawn) == Some(0);
  }

  lemma {:induction false} StrictlyAscending(s: seq<int>, i: int, j: int)
    requires Sorted(s) && NoDuplicates(s)
    requires 0 <= i <= j < |s|
    ensures s[j] - s[i] >= j - i
    decreases j - i
  {
    if i < j {
      StrictlyAscending(s, i, j - 1);
    }
  }

  /** After 90 draws the drawn list is exactly 1, 2, ..., 90, and the
      history is a permutation of it. */
  lemma FullSession(drawn: seq<int>, history: seq<int>)
    requires Consistent(drawn, history)
    requires |history| == PoolSize
    ensures drawn == seq(PoolSize, i => i + 1)
    ensures multiset(history) == multiset(seq(PoolSize, i => i + 1))
    ensures forall v :: InRange(v) <==> v in history
  {
    ConsistentFacts(drawn, history);
    forall i | 0 <= i < PoolSize ensures drawn[i] == i + 1 {
      StrictlyAscending(drawn, 0, i);
      StrictlyAscending(drawn, i, PoolSize - 1);
    }
    forall v | InRange(v) ensures v in history {
      assert drawn[v - 1] == v;
    }
  }

  /** The life cycle of a session, read off its fields. */
  datatype SessionState = Idle | Drawing | Result(value: int) | Exhausted(message: string)

  /** What one call of the draw handler ends with. */
  datatype DrawOutcome =
    | Drawn(value: int)   // a new ball was accepted
    | PoolExhausted       // all 90 balls are out; nothing was drawn
    | StillDrawing        // every supplied sample hit a drawn ball; the loop is still running

  class DrawSession {
    var currentNumber: Option<int>
    var drawnNumbers: seq<int>
    var drawHistory: seq<int>
    var isLoading: bool
    var error: Option<string>

    ghost predicate Valid()
      reads this
    {
      && Consistent(drawnNumbers, drawHistory)
      && (currentNumber.Some? ==>
            drawHistory != [] && currentNumber.value == drawHistory[|drawHistory| - 1])
      && (error.Some? ==>
            error.value == ExhaustedMessage && |drawnNumbers| == PoolSize && currentNumber.None?)
      && (isLoading ==> error.None? && currentNumber.None?)
    }

    /** The life-cycle state the fields encode. */
    function State(): (s: SessionState)
      reads this
      ensures s.Idle? ==> !isLoading && error.None? && currentNumber.None?
      ensures s.Drawing? <==> isLoading
      ensures Valid() && s.Exhausted? ==>
        s.message == ExhaustedMessage && |drawnNumbers| == PoolSize
      ensures Valid() && s.Result? ==>
        drawHistory != [] && s.value == drawHistory[|drawHistory| - 1]
    {
      if isLoading then Drawing
      else if error.Some? then Exhausted(error.value)
      else if currentNumber.Some? then Result(currentNumber.value)
      else Idle
    }

    /** A fresh session: nothing drawn, no message, not loading. */
    constructor ()
      ensures Valid() && State() == Idle
      ensures currentNumber == None && drawnNumbers == [] && drawHistory == []
      ensures !isLoading && error == None
    {
      currentNumber := None;
      drawnNumbers := [];
      drawHistory := [];
      isLoading := false;
      error := None;
    }

    /** The draw handler. `randoms` are the successive values Math.random()
        returns to the rejection loop. */
    method GenerateBingoNumber(randoms: seq<real>) returns (outcome: DrawOutcome)
      requires Valid() && AreSamples(randoms)
      modifies this
      ensures Valid()
      // pool exhausted: only the message, the current number and the
      // loading flag change
      ensures old(|drawnNumbers|) >= PoolSize ==>
        && outcome == PoolExhausted
        && State() == Exhausted(ExhaustedMessage)
        && error == Some(ExhaustedMessage) && currentNumber == None && !isLoading
        && drawnNumbers == old(drawnNumbers) && drawHistory == old(drawHistory)
      // no sample produced a fresh ball: the loop has not ended yet
      ensures old(|drawnNumbers|) < PoolSize && FirstFresh(randoms, old(drawnNumbers)).None? ==>
        && outcome == StillDrawing
        && State() == Drawing
        && error == None && currentNumber == None && isLoading
        && drawnNumbers == old(drawnNumbers) && drawHistory == old(drawHistory)
      // the first fresh candidate is accepted
      ensures old(|drawnNumbers|) < PoolSize && FirstFresh(randoms, old(drawnNumbers)).Some? ==>
        var v := Candidate(randoms[FirstFresh(randoms, old(drawnNumbers)).value]);
        && InRange(v) && v !in old(drawnNumbers)
        && outcome == Drawn(v)
        && State() == Result(v)
        && currentNumber == Some(v) && error == None && !isLoading
        && drawnNumbers == Sort(old(drawnNumbers) + [v])
        && drawHistory == old(drawHistory) + [v]
    {
      ConsistentFacts(drawnNumbers, drawHistory);
      isLoading := true;
      error := None;
      currentNumber := None;

      if |drawnNumbers| >= PoolSize {
        error := Some(ExhaustedMessage);
        isLoading := false;
        return PoolExhausted;
      }

      // The 500 ms delay before the pick is one sequential step with no
      // effect on the state.

      var i := 0;
      var randomNumber := 0;
      var accepted := false;
      while !accepted && i < |randoms|
        invariant 0 <= i <= |randoms|
        invariant accepted ==>
          0 < i && randomNumber == Candidate(randoms[i - 1]) && randomNumber !in drawnNumbers
        invariant forall j :: 0 <= j < (if accepted then i - 1 else i) ==>
          Candidate(randoms[j]) in drawnNumbers
      {
        randomNumber := Candidate(randoms[i]);
        accepted := randomNumber !in drawnNumbers;
        i := i + 1;
      }

      if !accepted {
        assert FirstFresh(randoms, drawnNumbers).None?;
        return StillDrawing;
      }
      assert FirstFresh(randoms, drawnNumbers) == Some(i - 1);
      Accept(randomNumber);
      outcome := Drawn(randomNumber);
    }

    /** The end of a successful draw: the accepted ball becomes the current
        one, is sorted into the drawn list and appended to the history, and
        loading ends. */
    method Accept(v: int)
      requires Valid() && isLoading
      requires |drawnNumbers| < PoolSize && InRange(v) && v !in drawnNumbers
      modifies this
      ensures Valid() && State() == Result(v)
      ensures currentNumber == Some(v) && error == old(error) && !isLoading
      ensures drawnNumbers == Sort(old(drawnNumbers) + [v])
      ensures drawHistory == old(drawHistory) + [v]
    {
      var sorted, history := Sort(drawnNumbers + [v]), drawHistory + [v];
      DrawKeepsConsistent(drawnNumbers, drawHistory, v);
      currentNumber, drawnNumbers, drawHistory, isLoading := Some(v), sorted, history, false;
    }

    /** The reset handler: from any state back to an empty, idle session. */
    method HandleReset()
      modifies this
      ensures Valid() && State() == Idle
      ensures currentNumber == None && drawnNumbers == [] && drawHistory == []
      ensures !isLoading && error == None
    {
      currentNumber := None;
      drawnNumbers := [];
      drawHistory := [];
      error := None;
      isLoading := false;
    }
  }
}
