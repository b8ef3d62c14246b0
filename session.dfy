// The typing-test page's session state and its event handlers. Each handler
// is one atomic update of the current state; the repeating one-second timer
// is a set of live interval ids, each firing through an explicit Tick.

module TypingSession {
  import opened Metrics

  /** The languages offered by the language selector. */
  datatype Language = Js | Go | Java | Py | C | Cpp | Node

  datatype Option<T> = None | Some(value: T)

  /** Every field of a session, as one value. */
  datatype State = State(
    language: Language,
    textToType: string,
    userInput: string,
    timer: nat,
    isTyping: bool,
    wpm: Number,
    accuracy: Number,
    showModal: bool,
    timerRef: Option<nat>,
    live: set<nat>,
    nextId: nat)

  /** The fields resetTest writes; the others are kept. */
  function Reset(s: State): (r: State) {
    s.(userInput := "", timer := 0, wpm := Finite(0), accuracy := Finite(100),
       isTyping := false, showModal := false)
  }

  /** Resetting twice is resetting once. */
  lemma ResetIdempotent(s: State)
    ensures Reset(Reset(s)) == Reset(s)
  {
  }

  class Session {
    /** The code snippet shown for each language. */
    const snippets: Language -> string

    var language: Language
    var textToType: string
    var userInput: string
    var timer: nat
    var isTyping: bool
    var wpm: Number
    var accuracy: Number
    var showModal: bool
    /** timerRef.current: the id of the interval started last, if any. */
    var timerRef: Option<nat>
    /** Intervals started and not yet cleared; each one keeps ticking. */
    var live: set<nat>
    /** The id the next setInterval call returns (ids are positive). */
    var nextId: nat

    ghost function Snapshot(): State
      reads this
    {
      State(language, textToType, userInput, timer, isTyping, wpm, accuracy,
            showModal, timerRef, live, nextId)
    }

    ghost predicate Valid()
      reads this
    {
      textToType == snippets(language) &&
      0 < nextId &&
      (forall id :: id in live ==> 0 < id < nextId) &&
      (timerRef.Some? ==> 0 < timerRef.value < nextId) &&
      (isTyping ==> timerRef.Some? && timerRef.value in live)
    }

    /** The initial state of the page. */
    constructor (snippets: Language -> string)
      ensures Valid()
      ensures this.snippets == snippets
      ensures Snapshot() == State(Js, snippets(Js), "", 0, false, Finite(0), Finite(100),
                                  false, None, {}, 1)
    {
      this.snippets := snippets;
      language := Js;
      textToType := snippets(Js);
      userInput := "";
      timer := 0;
      isTyping := false;
      wpm := Finite(0);
      accuracy := Finite(100);
      showModal := false;
      timerRef := None;
      live := {};
      nextId := 1;
    }

    /** startTimer: mark the session as typing and start a new interval,
        remembering its id in timerRef. */
    method StartTimer()
      requires Valid()
      modifies this
      ensures Valid()
      ensures Snapshot() == old(Snapshot()).(isTyping := true, timerRef := Some(old(nextId)),
                                             live := old(live) + {old(nextId)},
                                             nextId := old(nextId) + 1)
      ensures old(nextId) !in old(live) && |live| == |old(live)| + 1
    {
      isTyping := true;
      live := live + {nextId};
      timerRef := Some(nextId);
      nextId := nextId + 1;
    }

    /** stopTimer: clear the interval timerRef names (nothing before the
        first start) and mark the session as not typing. */
    method StopTimer()
      requires Valid()
      modifies this
      ensures Valid()
      ensures Snapshot() == old(Snapshot()).(isTyping := false,
                                             live := old(live) - Cleared(old(timerRef)))
    {
      live := live - Cleared(timerRef);
      isTyping := false;
    }

    /** One firing of interval id: a live interval adds one second, a cleared
        one never fires. */
    method Tick(id: nat)
      requires Valid()
      modifies this
      ensures Valid()
      ensures Snapshot() == old(Snapshot()).(timer := old(timer) + if id in old(live) then 1 else 0)
    {
      if id in live {
        timer := timer + 1;
      }
    }

    /** handleLanguageChange: load the snippet of lang and reset the scores,
        leaving isTyping and the intervals as they are. */
    method HandleLanguageChange(lang: Language)
      requires Valid()
      modifies this
      ensures Valid()
      ensures Snapshot() == old(Snapshot()).(language := lang, textToType := snippets(lang),
                                             userInput := "", timer := 0, wpm := Finite(0),
                                             accuracy := Finite(100), showModal := false)
    {
      language := lang;
      textToType := snippets(lang);
      userInput := "";
      timer := 0;
      wpm := Finite(0);
      accuracy := Finite(100);
      showModal := false;
    }

    /** handleInputChange: record the input; the first keystroke of a run
        starts the timer; input equal to the target completes the test. */
    method HandleInputChange(input: string)
      requires Valid()
      modifies this
      ensures Valid()
      ensures userInput == input
      ensures language == old(language) && textToType == old(textToType) && timer == old(timer)
      // a keystroke while not typing starts exactly one interval
      ensures timerRef == (if old(isTyping) then old(timerRef) else Some(old(nextId)))
      ensures nextId == old(nextId) + (if old(isTyping) then 0 else 1)
      ensures var started := if old(isTyping) then old(live) else old(live) + {old(nextId)};
              live == if input == textToType then started - {timerRef.value} else started
      // completion stops the run and shows the scores
      ensures isTyping == (input != textToType)
      ensures input == textToType ==>
                wpm == Wpm(input, timer) && accuracy == Accuracy(input, textToType) && showModal
      ensures input != textToType ==>
                wpm == old(wpm) && accuracy == old(accuracy) && showModal == old(showModal)
    {
      userInput := input;
      if !isTyping {
        StartTimer();
      }
      if input == textToType {
        ShowResults(input);
      }
    }

    /** The completion branch of handleInputChange: stop the timer, compute
        both scores from the current timer and target, and show them. */
    method ShowResults(input: string)
      requires Valid()
      modifies this
      ensures Valid()
      ensures Snapshot() == old(Snapshot()).(isTyping := false,
                                             live := old(live) - Cleared(old(timerRef)),
                                             wpm := Wpm(input, old(timer)),
                                             accuracy := Accuracy(input, old(textToType)),
                                             showModal := true)
    {
      StopTimer();
      wpm := Wpm(input, timer);
      accuracy := CalculateAccuracy(input, textToType);
      showModal := true;
    }

    /** resetTest: clear the input and the scores and mark the session as not
        typing. The running interval is not cleared. */
    method ResetTest()
      requires Valid()
      modifies this
      ensures Valid()
      ensures Snapshot() == Reset(old(Snapshot()))
    {
      userInput := "";
      timer := 0;
      wpm := Finite(0);
      accuracy := Finite(100);
      isTyping := false;
      showModal := false;
    }
  }

  /** The ids clearInterval(timerRef.current) removes. */
  function Cleared(timerRef: Option<nat>): set<nat> {
    if timerRef.Some? then {timerRef.value} else {}
  }

  /** After resetTest the running interval is not cleared, and the next
      keystroke starts a second one: every second then adds two to the
      timer. Completing the test clears only the newer interval, so the
      timer keeps counting while the results are shown. */
  method ResetLeaksInterval(snippets: Language -> string)
    returns (liveWhileTyping: nat, timerAfterOneSecond: nat, liveAfterCompletion: nat,
             timerAfterCompletion: nat)
    ensures liveWhileTyping == 2 && timerAfterOneSecond == 2
    ensures liveAfterCompletion == 1 && timerAfterCompletion == 3
  {
    var s := new Session(snippets);
    var typed := snippets(Js) + " ";
    assert typed != snippets(Js) by { assert |typed| != |snippets(Js)|; }
    s.HandleInputChange(typed);
    s.ResetTest();
    s.HandleInputChange(typed);
    assert s.live == {1, 2};
    s.Tick(1);
    s.Tick(2);
    liveWhileTyping, timerAfterOneSecond := |s.live|, s.timer;
    s.HandleInputChange(snippets(Js));
    assert s.live == {1} && s.showModal;
    s.Tick(1);
    s.Tick(2);
    liveAfterCompletion, timerAfterCompletion := |s.live|, s.timer;
  }

  /** Completing the test before the first tick divides by a zero timer:
      the WPM shown is Infinity. The interval started by that keystroke is
      cleared by the same keystroke. */
  method CompleteBeforeFirstTick(snippets: Language -> string)
    returns (wpm: Number, accuracy: Number, liveIntervals: nat)
    ensures wpm == Infinity
    ensures accuracy == if |snippets(Js)| > 0 then Finite(100) else NaN
    ensures liveIntervals == 0
  {
    var s := new Session(snippets);
    s.HandleInputChange(snippets(Js));
    if |snippets(Js)| > 0 {
      ExactInputScoresFull(snippets(Js));
    }
    wpm, accuracy, liveIntervals := s.wpm, s.accuracy, |s.live|;
  }

  /** Changing language while typing keeps the run going: isTyping stays
      true and the interval keeps adding to the freshly zeroed timer. */
  method LanguageChangeKeepsTimer(snippets: Language -> string, lang: Language)
    returns (typing: bool, elapsed: nat)
    ensures typing && elapsed == 1
  {
    var s := new Session(snippets);
    var typed := snippets(Js) + " ";
    assert typed != snippets(Js) by { assert |typed| != |snippets(Js)|; }
    s.HandleInputChange(typed);
    s.Tick(1);
    s.HandleLanguageChange(lang);
    s.Tick(1);
    typing, elapsed := s.isTyping, s.timer;
  }
}
