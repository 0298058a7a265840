/** The interactive menu of main: prompt until the answer names a live
    streamer, exit on an empty line or on the exit option. Each element of
    lines is one line the user typed, without its newline. */
module Menu {
  import opened CLib

  datatype MenuOutcome =
    | Exit            // exit(EXIT_SUCCESS): empty line or the exit option
    | Play(answer: int)  // leaves the loop; streamer answer - 1 is played
    | NoMoreInput     // the user typed no further line

  /** The number of a live streamer in the list printed with the menu (1-based). */
  predicate Selectable(status: seq<int>, answer: int)
  {
    1 <= answer <= |status| && status[answer - 1] == 0
  }

  /** Line 89, the re-prompt condition, for an answer other than the exit
      option (line 85 has already exited on that one): exactly the answers
      that are not a live streamer's number. */
  lemma RepromptIffNotSelectable(status: seq<int>, answer: int)
    requires answer != |status| + 1
    ensures (answer <= 0 || answer > |status| + 1 || status[answer - 1] != 0) <==> !Selectable(status, answer)
  {
  }

  /** A line that ends the loop: empty, the exit option, or a live streamer. */
  predicate Decisive(status: seq<int>, line: string)
  {
    line == [] || Atoi(line) == |status| + 1 || Selectable(status, Atoi(line))
  }

  /** What a decisive line decides. */
  function Verdict(status: seq<int>, line: string): MenuOutcome
  {
    if line == [] || Atoi(line) == |status| + 1 then Exit else Play(Atoi(line))
  }

  /** Lines 72-89, line by line: the first line that is empty or reads as the
      exit option exits; the first that reads as a live streamer's number is
      the selection; every other line re-prompts. */
  function MenuDecision(status: seq<int>, lines: seq<string>): MenuOutcome
    decreases |lines|
  {
    if lines == [] then NoMoreInput
    else if lines[0] == [] || Atoi(lines[0]) == |status| + 1 then Exit
    else if Selectable(status, Atoi(lines[0])) then Play(Atoi(lines[0]))
    else MenuDecision(status, lines[1..])
  }

  /** The value of the guard at line 74 as written, which parses as
      (answer != -1 && answer <= 0) || answer > count + 1 || status[answer - 1] != 0,
      evaluated left to right with short-circuit. ReadsOutside(i) means the
      guard reads status[i], outside the array. */
  datatype GuardValue = Value(b: bool) | ReadsOutside(index: int)

  function ErrorGuardAsWritten(status: seq<int>, answer: int): GuardValue
  {
    if answer != -1 && answer <= 0 then Value(true)
    else if answer > |status| + 1 then Value(true)
    else if 0 <= answer - 1 < |status| then Value(status[answer - 1] != 0)
    else ReadsOutside(answer - 1)
  }

  /** The guard as written reads outside status exactly for answer -1 and for
      the exit option; -1 is the value answer holds at the first prompt, and
      the value atoi gives for a typed "-1". */
  lemma ErrorGuardAsWrittenReadsOutside(status: seq<int>, answer: int)
    ensures ErrorGuardAsWritten(status, answer).ReadsOutside? <==> answer == -1 || answer == |status| + 1
    ensures ErrorGuardAsWritten(status, -1) == ReadsOutside(-2)
  {
  }

  /** The guard as its comment describes it: an answer has been given and it
      is out of range or not a live streamer. */
  function ErrorGuard(status: seq<int>, answer: int): (error: bool)
    requires answer != |status| + 1
    ensures error <==> answer != -1 && !Selectable(status, answer)
  {
    answer != -1 && (answer <= 0 || answer > |status| + 1 || status[answer - 1] != 0)
  }

  /** Wherever the guard as written stays inside the array it agrees with
      the corrected one: the precedence slip only shows at answer -1. */
  lemma ErrorGuardAgreesInside(status: seq<int>, answer: int)
    requires answer != |status| + 1 && ErrorGuardAsWritten(status, answer).Value?
    ensures ErrorGuardAsWritten(status, answer) == Value(ErrorGuard(status, answer))
  {
  }

  /** The do-while loop of lines 70-89. errorShown[j] says whether "Error. " is
      printed before the j-th prompt (guard of line 74, corrected). */
  method SelectStream(status: seq<int>, lines: seq<string>) returns (outcome: MenuOutcome, errorShown: seq<bool>)
    ensures outcome == MenuDecision(status, lines)
    ensures 1 <= |errorShown| <= |lines| + 1
    ensures (outcome == NoMoreInput) == (|errorShown| == |lines| + 1)
    ensures !errorShown[0]
    ensures forall j :: 1 <= j < |errorShown| ==> errorShown[j] == (Atoi(lines[j - 1]) != -1)
    ensures forall j :: 0 <= j < |errorShown| - 1 ==> !Decisive(status, lines[j])
    ensures outcome != NoMoreInput ==> Decisive(status, lines[|errorShown| - 1])
  {
    var answer := -1;
    var k := 0;
    errorShown := [];
    while true
      invariant 0 <= k <= |lines| && |errorShown| == k
      invariant MenuDecision(status, lines) == MenuDecision(status, lines[k..])
      invariant k == 0 ==> answer == -1
      invariant k > 0 ==> answer == Atoi(lines[k - 1]) && answer != |status| + 1 && !Selectable(status, answer)
      invariant k > 0 ==> !errorShown[0]
      invariant forall j :: 1 <= j < k ==> errorShown[j] == (Atoi(lines[j - 1]) != -1)
      invariant forall j :: 0 <= j < k ==> !Decisive(status, lines[j])
      decreases |lines| - k
    {
      errorShown := errorShown + [ErrorGuard(status, answer)];
      if k == |lines| {
        outcome := NoMoreInput;
        return;
      }
      var line := lines[k];
      var value := Atoi(line);
      MenuStep(status, lines, k);
      k := k + 1;
      if |line| == 0 {
        outcome := Exit;
        return;
      }
      answer := value;
      if answer == |status| + 1 {
        outcome := Exit;
        return;
      }
      if Selectable(status, answer) {
        break;
      }
      assert !Decisive(status, line);
    }
    outcome := Play(answer);
  }

  /** One prompt of the loop: line k decides, or the rest of the lines do. */
  lemma MenuStep(status: seq<int>, lines: seq<string>, k: nat)
    requires k < |lines|
    ensures MenuDecision(status, lines[k..]) ==
              if lines[k] == [] || Atoi(lines[k]) == |status| + 1 then Exit
              else if Selectable(status, Atoi(lines[k])) then Play(Atoi(lines[k]))
              else MenuDecision(status, lines[k + 1..])
  {
    assert lines[k..][0] == lines[k] && lines[k..][1..] == lines[k + 1..];
  }

  // Properties of the selection rule.

  /** The loop only ever leaves with the number of a live streamer. */
  lemma {:induction false} PlayOnlyLive(status: seq<int>, lines: seq<string>)
    requires MenuDecision(status, lines).Play?
    ensures Selectable(status, MenuDecision(status, lines).answer)
  {
    if lines != [] && lines[0] != [] && Atoi(lines[0]) != |status| + 1 && !Selectable(status, Atoi(lines[0])) {
      PlayOnlyLive(status, lines[1..]);
    }
  }

  /** The first decisive line decides, whatever follows it. */
  lemma {:induction false} FirstDecisiveLineDecides(status: seq<int>, lines: seq<string>, k: nat)
    requires k < |lines| && Decisive(status, lines[k])
    requires forall j :: 0 <= j < k ==> !Decisive(status, lines[j])
    ensures MenuDecision(status, lines) == Verdict(status, lines[k])
  {
    if k > 0 {
      assert !Decisive(status, lines[0]);
      FirstDecisiveLineDecides(status, lines[1..], k - 1);
    }
  }

  /** The loop runs out of input exactly when no line is decisive. */
  lemma {:induction false} NoMoreInputIffNoneDecisive(status: seq<int>, lines: seq<string>)
    ensures MenuDecision(status, lines) == NoMoreInput <==> forall j :: 0 <= j < |lines| ==> !Decisive(status, lines[j])
  {
    if lines != [] {
      NoMoreInputIffNoneDecisive(status, lines[1..]);
      if !Decisive(status, lines[0]) {
        assert forall j :: 1 <= j < |lines| ==> lines[1..][j - 1] == lines[j];
      }
    }
  }

  /** Typing the number printed beside a live streamer selects that streamer. */
  lemma TypingShownNumber(status: seq<int>, i: nat, rest: seq<string>)
    requires i < |status| && status[i] == 0
    ensures MenuDecision(status, [Decimal(i + 1)] + rest) == Play(i + 1)
  {
    AtoiDecimal(i + 1);
  }

  /** Typing the number printed beside "Exit" exits, whatever the statuses,
      with no streamer live and with no streamers at all. */
  lemma TypingExitNumber(status: seq<int>, rest: seq<string>)
    ensures MenuDecision(status, [Decimal(|status| + 1)] + rest) == Exit
  {
    AtoiDecimal(|status| + 1);
  }

  /** Statuses live, offline, error (exit option 4): the answers 0, 2, 3 and 5
      re-prompt, 1 selects the live streamer, and an empty line exits. */
  lemma MenuExample()
    ensures MenuDecision([0, 1, 2], ["0", "2", "3", "5", "1"]) == Play(1)
    ensures MenuDecision([0, 1, 2], ["0", "2", "3", "5", ""]) == Exit
  {
    var status := [0, 1, 2];
    var played, exited := ["0", "2", "3", "5", "1"], ["0", "2", "3", "5", ""];
    AtoiOfDigit(0);
    AtoiOfDigit(1);
    AtoiOfDigit(2);
    AtoiOfDigit(3);
    AtoiOfDigit(5);
    MenuStep(status, played, 4);
    MenuStep(status, exited, 4);
    MenuStep(status, played, 3);
    MenuStep(status, exited, 3);
    MenuStep(status, played, 2);
    MenuStep(status, exited, 2);
    MenuStep(status, played, 1);
    MenuStep(status, exited, 1);
    MenuStep(status, played, 0);
    MenuStep(status, exited, 0);
    assert played[0..] == played && exited[0..] == exited;
  }

  lemma AtoiOfDigit(n: nat)
    requires n < 10
    ensures Atoi([('0' as int + n) as char]) == n
  {
    AtoiDecimal(n);
  }
}
