/** The quiz game store (src/lib/store.ts): one quiz attempt's status, position in the
    deck, score and lifelines, changed only by the store's five actions.

    Each action is specified by a function on a GameState value (Started, Answer, Next,
    WithLifeline, Reset); Apply and Run compose them into sequences of actions, about
    which the lemmas below speak. The class Store holds the same fields, each action a
    method that overwrites some of them, as the store's `set` calls do. */
module GameStore {
  import opened Common

  datatype Difficulty = Easy | Medium | Hard

  datatype Question = Question(
    id: string,
    text: string,
    options: seq<string>,
    correctIndex: int,
    difficulty: Difficulty,
    explanation: Option<string>)

  datatype Status = Idle | Playing | Won | Lost

  datatype Lifelines = Lifelines(skip: bool, fiftyFifty: bool)

  datatype LifelineType = Skip | FiftyFifty

  datatype AnswerResult = Correct | Wrong

  datatype GameState = GameState(
    status: Status,
    currentQuestionIndex: nat,
    score: nat,
    lifelines: Lifelines,
    deck: seq<Question>,
    deckId: Option<string>)

  /** Points for a correct answer and the bonus for completing the deck. */
  const CorrectPoints: nat := 100
  const CompletionBonus: nat := 1000

  /** The store before any action. */
  const InitialState := GameState(Idle, 0, 0, Lifelines(true, true), [], None)

  // ---------------------------------------------------------------------------
  // The actions, on values

  /** startGame(deck, deckId): every field is overwritten. */
  function Started(deck: seq<Question>, deckId: string): (t: GameState)
    ensures t.status == Playing && t.currentQuestionIndex == 0 && t.score == 0
    ensures t.lifelines.skip && t.lifelines.fiftyFifty
    ensures t.deck == deck && t.deckId == Some(deckId)
  {
    GameState(Playing, 0, 0, Lifelines(true, true), deck, Some(deckId))
  }

  /** answerQuestion(optionIndex): the current question must exist (the source reads
      `deck[currentQuestionIndex].correctIndex`). Only the score can change. */
  function Answer(s: GameState, optionIndex: int): (r: (GameState, AnswerResult))
    requires s.currentQuestionIndex < |s.deck|
    ensures r.1 == Correct <==> optionIndex == s.deck[s.currentQuestionIndex].correctIndex
    ensures r.0.status == s.status && r.0.currentQuestionIndex == s.currentQuestionIndex
    ensures r.0.lifelines == s.lifelines && r.0.deck == s.deck && r.0.deckId == s.deckId
    ensures r.1 == Correct ==> r.0.score == s.score + CorrectPoints
    ensures r.1 == Wrong ==> r.0 == s
  {
    if optionIndex == s.deck[s.currentQuestionIndex].correctIndex then
      (s.(score := s.score + CorrectPoints), Correct)
    else
      (s, Wrong)
  }

  /** nextQuestion(): on the last question the game is won with the completion bonus;
      anywhere else (including an empty deck or an index past the end) the index moves on. */
  function Next(s: GameState): (t: GameState)
    ensures t.lifelines == s.lifelines && t.deck == s.deck && t.deckId == s.deckId
    ensures s.currentQuestionIndex == |s.deck| - 1 ==>
      t.status == Won && t.score == s.score + CompletionBonus && t.currentQuestionIndex == s.currentQuestionIndex
    ensures s.currentQuestionIndex != |s.deck| - 1 ==>
      t.status == s.status && t.score == s.score && t.currentQuestionIndex == s.currentQuestionIndex + 1
  {
    if s.currentQuestionIndex == |s.deck| - 1 then
      s.(status := Won, score := s.score + CompletionBonus)
    else
      s.(currentQuestionIndex := s.currentQuestionIndex + 1)
  }

  /** useLifeline(kind): the flag of that kind becomes false whatever it was; a skip also
      moves the index on, without checking the end of the deck. */
  function WithLifeline(s: GameState, kind: LifelineType): (t: GameState)
    ensures kind == Skip ==> !t.lifelines.skip && t.lifelines.fiftyFifty == s.lifelines.fiftyFifty
    ensures kind == FiftyFifty ==> !t.lifelines.fiftyFifty && t.lifelines.skip == s.lifelines.skip
    ensures t.currentQuestionIndex == if kind == Skip then s.currentQuestionIndex + 1 else s.currentQuestionIndex
    ensures t.status == s.status && t.score == s.score && t.deck == s.deck && t.deckId == s.deckId
  {
    var lifelines := match kind
      case Skip => s.lifelines.(skip := false)
      case FiftyFifty => s.lifelines.(fiftyFifty := false);
    s.(lifelines := lifelines,
       currentQuestionIndex := if kind == Skip then s.currentQuestionIndex + 1 else s.currentQuestionIndex)
  }

  /** resetGame(): only the status and the deck are cleared. */
  function Reset(s: GameState): (t: GameState)
    ensures t.status == Idle && t.deck == []
    ensures t.currentQuestionIndex == s.currentQuestionIndex && t.score == s.score
    ensures t.lifelines == s.lifelines && t.deckId == s.deckId
  {
    s.(status := Idle, deck := [])
  }

  // ---------------------------------------------------------------------------
  // Sequences of actions

  datatype Action =
    | StartGame(deck: seq<Question>, deckId: string)
    | AnswerQuestion(optionIndex: int)
    | NextQuestion
    | UseLifeline(kind: LifelineType)
    | ResetGame

  /** An action the store can take without reading past the deck. */
  predicate Enabled(s: GameState, a: Action)
  {
    a.AnswerQuestion? ==> s.currentQuestionIndex < |s.deck|
  }

  function Apply(s: GameState, a: Action): GameState
    requires Enabled(s, a)
  {
    match a
    case StartGame(deck, deckId) => Started(deck, deckId)
    case AnswerQuestion(optionIndex) => Answer(s, optionIndex).0
    case NextQuestion => Next(s)
    case UseLifeline(kind) => WithLifeline(s, kind)
    case ResetGame => Reset(s)
  }

  predicate Runnable(s: GameState, actions: seq<Action>)
    decreases |actions|
  {
    actions == [] || (Enabled(s, actions[0]) && Runnable(Apply(s, actions[0]), actions[1..]))
  }

  function Run(s: GameState, actions: seq<Action>): GameState
    requires Runnable(s, actions)
    decreases |actions|
  {
    if actions == [] then s else Run(Apply(s, actions[0]), actions[1..])
  }

  /** Answer every question from position k on correctly, calling nextQuestion after each. */
  function PerfectPlay(deck: seq<Question>, k: nat): seq<Action>
    decreases |deck| - k
  {
    if k >= |deck| then []
    else [AnswerQuestion(deck[k].correctIndex), NextQuestion] + PerfectPlay(deck, k + 1)
  }

  // ---------------------------------------------------------------------------
  // Properties of runs

  lemma {:induction false} PerfectPlayFrom(s: GameState)
    requires s.currentQuestionIndex < |s.deck|
    ensures Runnable(s, PerfectPlay(s.deck, s.currentQuestionIndex))
    ensures var t := Run(s, PerfectPlay(s.deck, s.currentQuestionIndex));
      && t.status == Won
      && t.score == s.score + CorrectPoints * (|s.deck| - s.currentQuestionIndex) + CompletionBonus
      && t.currentQuestionIndex == |s.deck| - 1
      && t.lifelines == s.lifelines && t.deck == s.deck && t.deckId == s.deckId
    decreases |s.deck| - s.currentQuestionIndex
  {
    var k := s.currentQuestionIndex;
    var a := AnswerQuestion(s.deck[k].correctIndex);
    var rest := PerfectPlay(s.deck, k + 1);
    var play := PerfectPlay(s.deck, k);
    assert play == [a, NextQuestion] + rest;
    assert play[0] == a && play[1..] == [NextQuestion] + rest;
    assert ([NextQuestion] + rest)[0] == NextQuestion && ([NextQuestion] + rest)[1..] == rest;
    var s1 := Apply(s, a);
    var s2 := Apply(s1, NextQuestion);
    assert s1 == s.(score := s.score + CorrectPoints);
    if k == |s.deck| - 1 {
      assert rest == [];
      assert s2.status == Won;
    } else {
      assert s2 == s.(score := s.score + CorrectPoints, currentQuestionIndex := k + 1);
      PerfectPlayFrom(s2);
    }
    assert Runnable(s2, rest);
    assert Runnable(s1, [NextQuestion] + rest);
    assert Runnable(s, play);
    assert Run(s, play) == Run(s1, [NextQuestion] + rest) == Run(s2, rest);
  }

  /** A deck of n >= 1 questions, started and played perfectly, ends won with
      100 * n + 1000 points. */
  lemma PerfectGameWins(deck: seq<Question>, deckId: string)
    requires |deck| >= 1
    ensures Runnable(Started(deck, deckId), PerfectPlay(deck, 0))
    ensures var t := Run(Started(deck, deckId), PerfectPlay(deck, 0));
      t.status == Won && t.score == CorrectPoints * |deck| + CompletionBonus
  {
    PerfectPlayFrom(Started(deck, deckId));
  }

  /** Between two startGame calls a lifeline flag can only go from true to false. */
  lemma {:induction false} LifelinesOnlyFall(s: GameState, actions: seq<Action>)
    requires Runnable(s, actions)
    requires forall i :: 0 <= i < |actions| ==> !actions[i].StartGame?
    ensures var t := Run(s, actions);
      (t.lifelines.skip ==> s.lifelines.skip) && (t.lifelines.fiftyFifty ==> s.lifelines.fiftyFifty)
    decreases |actions|
  {
    if actions != [] {
      assert !actions[0].StartGame?;
      var rest := actions[1..];
      assert forall i :: 0 <= i < |rest| ==> rest[i] == actions[i + 1];
      LifelinesOnlyFall(Apply(s, actions[0]), rest);
    }
  }

  /** nextQuestion repeated k times. */
  function Nexts(k: nat): (r: seq<Action>)
    ensures |r| == k && forall i :: 0 <= i < k ==> r[i] == NextQuestion
  {
    if k == 0 then [] else [NextQuestion] + Nexts(k - 1)
  }

  /** Once a skip has moved the index past the last question, no number of
      nextQuestion calls wins the game: the index just keeps growing. */
  lemma {:induction false} PastTheEndNeverWins(s: GameState, k: nat)
    requires s.currentQuestionIndex >= |s.deck|
    ensures Runnable(s, Nexts(k))
    ensures var t := Run(s, Nexts(k));
      t.status == s.status && t.score == s.score && t.currentQuestionIndex == s.currentQuestionIndex + k
    decreases k
  {
    if k > 0 {
      assert Nexts(k)[1..] == Nexts(k - 1);
      PastTheEndNeverWins(Next(s), k - 1);
    }
  }

  /** nextQuestion does not look at the status: called again on a won game it adds the
      completion bonus once more. */
  lemma WonGameKeepsCollectingBonus(s: GameState)
    requires s.currentQuestionIndex == |s.deck| - 1
    ensures Next(Next(s)).status == Won
    ensures Next(Next(s)).score == s.score + 2 * CompletionBonus
  {
  }

  // ---------------------------------------------------------------------------
  // The store itself

  class Store {
    var status: Status
    var currentQuestionIndex: nat
    var score: nat
    var lifelines: Lifelines
    var deck: seq<Question>
    var deckId: Option<string>

    function State(): GameState
      reads this
    {
      GameState(status, currentQuestionIndex, score, lifelines, deck, deckId)
    }

    constructor ()
      ensures State() == InitialState
    {
      status := Idle;
      currentQuestionIndex := 0;
      score := 0;
      lifelines := Lifelines(true, true);
      deck := [];
      deckId := None;
    }

    method StartGame(newDeck: seq<Question>, newDeckId: string)
      modifies this
      ensures State() == Started(newDeck, newDeckId)
    {
      status := Playing;
      deck := newDeck;
      deckId := Some(newDeckId);
      currentQuestionIndex := 0;
      score := 0;
      lifelines := Lifelines(true, true);
    }

    method AnswerQuestion(optionIndex: int) returns (result: AnswerResult)
      requires currentQuestionIndex < |deck|
      modifies this
      ensures (State(), result) == Answer(old(State()), optionIndex)
    {
      var question := deck[currentQuestionIndex];
      if optionIndex == question.correctIndex {
        score := score + CorrectPoints;
        result := Correct;
      } else {
        result := Wrong;
      }
    }

    method NextQuestion()
      modifies this
      ensures State() == Next(old(State()))
    {
      var isLastQuestion := currentQuestionIndex == |deck| - 1;
      if isLastQuestion {
        status := Won;
        score := score + CompletionBonus;
      } else {
        currentQuestionIndex := currentQuestionIndex + 1;
      }
    }

    method UseLifeline(kind: LifelineType)
      modifies this
      ensures State() == WithLifeline(old(State()), kind)
    {
      match kind {
        case Skip =>
          lifelines := lifelines.(skip := false);
          currentQuestionIndex := currentQuestionIndex + 1;
        case FiftyFifty =>
          lifelines := lifelines.(fiftyFifty := false);
      }
    }

    method ResetGame()
      modifies this
      ensures State() == Reset(old(State()))
    {
      status := Idle;
      deck := [];
    }
  }
}
