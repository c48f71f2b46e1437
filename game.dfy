/**
 * The guess-checking state machine of the number guessing game: a secret
 * target in 1..100, a counter of remaining wrong guesses starting at 10, and
 * a playing/over phase. State, Start and Next are the reference definitions;
 * the class Game keeps the same state in mutable fields, as the page script
 * keeps it in module-level variables and DOM flags.
 */
module GuessGame {
  import opened Digits

  /** Wrong guesses allowed in one round. */
  const MaxGuesses: int := 10
  /** The largest guess accepted, and the largest target drawn. */
  const MaxValue: int := 100

  /** The feedback line under the input field. */
  datatype Message = Hidden | OutOfRange | Congratulations | Lost | High | Low
  {
    /** The text shown; Hidden is the hidden paragraph. */
    function Text(): (r: string)
      ensures r == "" <==> this == Hidden
    {
      match this
      case Hidden => ""
      case OutOfRange => "Please enter a number in the given range"
      case Congratulations => "Congratulations"
      case Lost => "You lost the game"
      case High => "Your guess is high"
      case Low => "Your guess is low"
    }

    /** The messages the game ends with. */
    predicate Final() {
      this == Congratulations || this == Lost
    }
  }

  /**
   * The whole logical state: the secret, the remaining wrong guesses, the
   * phase (over once the input and the check button are disabled) and the
   * message last shown.
   */
  datatype State = State(target: int, wrongGuess: int, over: bool, message: Message)
  {
    /**
     * What holds in every state a round can reach: the target is in range,
     * the counter is in 0..10 and at least 1 while playing, the game is over
     * exactly when a final message is up, and the loss message is up exactly
     * when the counter is exhausted.
     */
    ghost predicate Valid() {
      && 1 <= target <= MaxValue
      && 0 <= wrongGuess <= MaxGuesses
      && (!over ==> 1 <= wrongGuess)
      && (over <==> message.Final())
      && (message == Lost <==> wrongGuess == 0)
    }
  }

  /** A guess that passes both the pattern check and the range check. */
  predicate InRange(guess: string) {
    AllDigits(guess) && ParseDecimal(guess) <= MaxValue
  }

  /** An accepted guess that misses the target, so it costs one guess. */
  predicate Miss(target: int, guess: string) {
    InRange(guess) && ParseDecimal(guess) != target
  }

  /** The state a fresh round starts in, for the target t drawn for it. */
  function Start(t: int): (s: State)
    requires 1 <= t <= MaxValue
    ensures s.Valid() && !s.over
  {
    State(t, MaxGuesses, false, Hidden)
  }

  /**
   * The click handler of the check button, applied to the text in the input
   * field. It does not look at the phase itself: the disabled button keeps
   * it from running once the game is over.
   */
  function Next(s: State, guess: string): (r: State)
    // A string that is not all digits only clears the field.
    ensures !AllDigits(guess) ==> r == s
    // Too large a number shows the range message and costs nothing.
    ensures AllDigits(guess) && ParseDecimal(guess) > MaxValue ==> r == s.(message := OutOfRange)
    // The target wins whatever the counter says.
    ensures InRange(guess) && ParseDecimal(guess) == s.target ==>
              r == s.(over := true, message := Congratulations)
    // The target never changes, and the counter drops by one exactly on a miss.
    ensures r.target == s.target
    ensures r.wrongGuess == if Miss(s.target, guess) then s.wrongGuess - 1 else s.wrongGuess
    // A miss ends the game exactly when it takes the counter to zero.
    ensures Miss(s.target, guess) ==> (r.over <==> s.over || s.wrongGuess == 1)
    ensures Miss(s.target, guess) && s.wrongGuess == 1 ==> r.over && r.message == Lost
    ensures Miss(s.target, guess) && s.wrongGuess != 1 ==>
              (r.message == High <==> ParseDecimal(guess) > s.target) &&
              (r.message == Low <==> ParseDecimal(guess) < s.target)
    // A playing state that keeps the invariant goes to one that keeps it.
    ensures s.Valid() && !s.over ==> r.Valid()
  {
    if !AllDigits(guess) then s
    else
      var value := ParseDecimal(guess);
      if value > MaxValue then s.(message := OutOfRange)
      else if value == s.target then s.(over := true, message := Congratulations)
      else
        var left := s.wrongGuess - 1;
        if left == 0 then s.(wrongGuess := left, over := true, message := Lost)
        else s.(wrongGuess := left, message := if value > s.target then High else Low)
  }

  /**
   * A sequence of clicks on the check button. Once the game is over the
   * button is disabled, so the remaining clicks do nothing.
   */
  function Play(s: State, guesses: seq<string>): (r: State)
    ensures s.over ==> r == s
    ensures r.target == s.target
    decreases |guesses|
  {
    if guesses == [] || s.over then s
    else Play(Next(s, guesses[0]), guesses[1..])
  }

  /**
   * Across any number of clicks the invariant is kept, the target stays
   * fixed and the counter never grows.
   */
  lemma {:induction false} PlayKeepsValid(s: State, guesses: seq<string>)
    requires s.Valid()
    ensures Play(s, guesses).Valid()
    ensures Play(s, guesses).target == s.target
    ensures Play(s, guesses).wrongGuess <= s.wrongGuess
    decreases |guesses|
  {
    if guesses != [] && !s.over {
      PlayKeepsValid(Next(s, guesses[0]), guesses[1..]);
    }
  }

  /**
   * As many misses as there are guesses left lose the round: the game ends
   * with the loss message and an empty counter.
   */
  lemma {:induction false} MissesLose(s: State, guesses: seq<string>)
    requires s.Valid() && !s.over
    requires |guesses| >= s.wrongGuess
    requires forall i :: 0 <= i < |guesses| ==> Miss(s.target, guesses[i])
    ensures Play(s, guesses).over
    ensures Play(s, guesses).message == Lost && Play(s, guesses).wrongGuess == 0
    decreases |guesses|
  {
    var r := Next(s, guesses[0]);
    assert Miss(s.target, guesses[0]);
    if !r.over {
      forall i | 0 <= i < |guesses[1..]| ensures Miss(r.target, guesses[1..][i]) {
        assert guesses[1..][i] == guesses[i + 1];
      }
      MissesLose(r, guesses[1..]);
    }
  }

  /** The rejected inputs the pattern is there for leave the state alone. */
  lemma RejectedInputs(s: State)
    ensures Next(s, "") == s
    ensures Next(s, "-5") == s
    ensures Next(s, "3.5") == s
    ensures Next(s, " 7") == s
    ensures Next(s, "abc") == s
  {
  }

  /**
   * The game in its mutable form: the secret, the counter, the phase (the
   * disabled input and check button) and the message on the page.
   */
  class Game {
    var target: int
    var wrongGuess: int
    var over: bool
    var lastMessage: Message

    /** The fields as a State value. */
    function Snapshot(): State
      reads this
    {
      State(target, wrongGuess, over, lastMessage)
    }

    ghost predicate Valid()
      reads this
    {
      Snapshot().Valid()
    }

    /** The page load, which runs the initialization once. */
    constructor (t: int)
      requires 1 <= t <= MaxValue
      ensures Valid() && Snapshot() == Start(t)
    {
      new;
      Initialize(t);
    }

    /**
     * Starts a round for the target t, whatever state the previous round
     * was left in: a full counter, the message hidden, the input enabled.
     */
    method Initialize(t: int)
      requires 1 <= t <= MaxValue
      modifies this
      ensures Valid() && !over
      ensures Snapshot() == Start(t)
    {
      wrongGuess := MaxGuesses;
      target := t;
      lastMessage := Hidden;
      over := false;
    }

    /** Shows a message; nothing else changes. */
    method ShowMessage(msg: Message)
      modifies this`lastMessage
      ensures lastMessage == msg
    {
      lastMessage := msg;
    }

    /** Disables the input and the check button; nothing else changes. */
    method GameOver()
      modifies this`over
      ensures over
    {
      over := true;
    }

    /**
     * A click on the check button with the given field text. The button is
     * disabled once the game is over, so it only fires while playing.
     */
    method Check(guess: string)
      requires Valid() && !over
      modifies this
      ensures Valid()
      ensures Snapshot() == Next(old(Snapshot()), guess)
    {
      if AllDigits(guess) {
        var value := ParseDecimal(guess);
        if value > MaxValue {
          ShowMessage(OutOfRange);
          return;
        }
        if value == target {
          ShowMessage(Congratulations);
          GameOver();
        } else {
          wrongGuess := wrongGuess - 1;
          if wrongGuess == 0 {
            ShowMessage(Lost);
            GameOver();
          } else {
            ShowMessage(if value > target then High else Low);
          }
        }
      }
    }
  }

  /**
   * Example rounds through the class: a high miss, a rejected string, an
   * out-of-range value, and a win written with a leading zero.
   */
  method SampleRounds() {
    var g := new Game(50);
    g.Check("70");
    assert g.lastMessage == High && g.wrongGuess == 9 && !g.over;
    g.Check("abc");
    assert g.lastMessage == High && g.wrongGuess == 9 && !g.over;
    assert "101"[..2] == "10" && "10"[..1] == "1" && "1"[..0] == "";
    g.Check("101");
    assert g.lastMessage == OutOfRange && g.wrongGuess == 9 && !g.over;
    assert "050"[..2] == "05" && "05"[..1] == "0" && "0"[..0] == "";
    g.Check("050");
    assert g.lastMessage == Congratulations && g.wrongGuess == 9 && g.over;
  }
}
