/** Voice commands: a recognised phrase is mapped to at most one action by
    a chain of keyword tests, and a flag guards starting and stopping the
    recogniser. */
module Voice {
  import opened Text
  import opened Accessibility

  datatype Page = Home | About | Contact

  /** The single callback a recognised phrase triggers, if any. */
  datatype Action = Navigate(page: Page) | OpenChat | ChangeFontSize(size: FontSize) | NoAction

  /** No page or chat keyword is present. */
  predicate NoNavigationOrChat(command: string) {
    !Contains(command, "home") && !Contains(command, "about") && !Contains(command, "contact")
    && !Contains(command, "open chat") && !Contains(command, "start chat")
  }

  /** The `onresult` chain over the lower-cased, trimmed phrase; the first
      test that succeeds decides, so "home" beats everything and a font
      command is obeyed only when no page or chat keyword is present. Each
      test is written as in the handler, including alternatives that the
      first keyword already covers. */
  function ClassifyCommand(command: string): (r: Action)
    ensures Contains(command, "home") ==> r == Navigate(Home)
    ensures r.ChangeFontSize? ==> NoNavigationOrChat(command)
  {
    if Contains(command, "home") || Contains(command, "go home") then Navigate(Home)
    else if Contains(command, "about") || Contains(command, "go to about") then Navigate(About)
    else if Contains(command, "contact") || Contains(command, "go to contact") then Navigate(Contact)
    else if Contains(command, "open chat") || Contains(command, "start chat") then OpenChat
    else if Contains(command, "increase font") || Contains(command, "bigger text") then ChangeFontSize(Large)
    else if Contains(command, "decrease font") || Contains(command, "smaller text") then ChangeFontSize(Small)
    else if Contains(command, "normal font") || Contains(command, "medium text") then ChangeFontSize(Medium)
    else NoAction
  }

  /** What a transcript does: lower-cased, then trimmed, then classified. */
  function Classify(transcript: string): (r: Action)
    ensures r == ClassifyCommand(Lower(transcript))
  {
    TrimIrrelevant(Lower(transcript));
    ClassifyCommand(Trim(Lower(transcript)))
  }

  /** The chain with the covered alternatives dropped. */
  function ClassifySimple(command: string): Action {
    if Contains(command, "home") then Navigate(Home)
    else if Contains(command, "about") then Navigate(About)
    else if Contains(command, "contact") then Navigate(Contact)
    else if Contains(command, "open chat") || Contains(command, "start chat") then OpenChat
    else if Contains(command, "increase font") || Contains(command, "bigger text") then ChangeFontSize(Large)
    else if Contains(command, "decrease font") || Contains(command, "smaller text") then ChangeFontSize(Small)
    else if Contains(command, "normal font") || Contains(command, "medium text") then ChangeFontSize(Medium)
    else NoAction
  }

  lemma KeywordIn(phrase: string, keyword: string, at: nat)
    requires at + |keyword| <= |phrase| && phrase[at..at + |keyword|] == keyword
    ensures Contains(phrase, keyword)
  {
    assert OccursAt(phrase, keyword, at);
  }

  /** "go home", "go to about" and "go to contact" never decide anything
      the shorter keyword has not already decided. */
  lemma RedundantAlternatives(command: string)
    ensures ClassifyCommand(command) == ClassifySimple(command)
  {
    if Contains(command, "go home") {
      KeywordIn("go home", "home", 3);
      ContainsTransitive(command, "go home", "home");
    }
    if Contains(command, "go to about") {
      KeywordIn("go to about", "about", 6);
      ContainsTransitive(command, "go to about", "about");
    }
    if Contains(command, "go to contact") {
      KeywordIn("go to contact", "contact", 6);
      ContainsTransitive(command, "go to contact", "contact");
    }
  }

  /** A keyword that starts and ends with a letter is found in a phrase
      exactly when it is found in the trimmed phrase. */
  lemma TrimKeyword(command: string, k: string)
    requires k != [] && 'a' <= k[0] <= 'z' && 'a' <= k[|k| - 1] <= 'z'
    ensures Contains(Trim(command), k) <==> Contains(command, k)
  {
    ContainsTrimIff(command, k);
  }

  /** Trimming never changes the outcome: the keywords start and end with
      letters, so surrounding whitespace cannot hide or create one. */
  lemma TrimIrrelevant(command: string)
    ensures ClassifyCommand(Trim(command)) == ClassifyCommand(command)
  {
    TrimKeyword(command, "home");
    TrimKeyword(command, "go home");
    TrimKeyword(command, "about");
    TrimKeyword(command, "go to about");
    TrimKeyword(command, "contact");
    TrimKeyword(command, "go to contact");
    TrimKeyword(command, "open chat");
    TrimKeyword(command, "start chat");
    TrimKeyword(command, "increase font");
    TrimKeyword(command, "bigger text");
    TrimKeyword(command, "decrease font");
    TrimKeyword(command, "smaller text");
    TrimKeyword(command, "normal font");
    TrimKeyword(command, "medium text");
  }

  /** Letter case never changes the outcome. */
  lemma CaseIrrelevant(t1: string, t2: string)
    requires Lower(t1) == Lower(t2)
    ensures Classify(t1) == Classify(t2)
  {
  }

  /** Anything said with "home" in it goes home, whatever else it says. */
  lemma HomeWins(transcript: string)
    requires Contains(Lower(transcript), "home")
    ensures Classify(transcript) == Navigate(Home)
  {
    TrimIrrelevant(Lower(transcript));
  }

  /** The font commands, each only when no earlier test succeeded. */
  lemma FontCommands(command: string)
    requires NoNavigationOrChat(command)
    ensures Contains(command, "increase font") || Contains(command, "bigger text") ==>
              ClassifyCommand(command) == ChangeFontSize(Large)
    ensures !(Contains(command, "increase font") || Contains(command, "bigger text"))
            && (Contains(command, "decrease font") || Contains(command, "smaller text")) ==>
              ClassifyCommand(command) == ChangeFontSize(Small)
    ensures !(Contains(command, "increase font") || Contains(command, "bigger text"))
            && !(Contains(command, "decrease font") || Contains(command, "smaller text"))
            && (Contains(command, "normal font") || Contains(command, "medium text")) ==>
              ClassifyCommand(command) == ChangeFontSize(Medium)
  {
    RedundantAlternatives(command);
  }

  /** A phrase triggers nothing exactly when it holds none of the keywords. */
  lemma NoActionIffNoKeyword(command: string)
    ensures ClassifyCommand(command) == NoAction <==>
              NoNavigationOrChat(command)
              && !Contains(command, "increase font") && !Contains(command, "bigger text")
              && !Contains(command, "decrease font") && !Contains(command, "smaller text")
              && !Contains(command, "normal font") && !Contains(command, "medium text")
  {
    RedundantAlternatives(command);
  }

  // ---------------------------------------------------------------------
  // The listening flag

  class Listener {
    /** Whether the browser provided a recogniser. */
    const hasRecognizer: bool
    var isListening: bool

    constructor(hasRecognizer: bool)
      ensures this.hasRecognizer == hasRecognizer && !isListening
    {
      this.hasRecognizer := hasRecognizer;
      isListening := false;
    }

    /** `startListening`: starts the recogniser only if there is one and it
        is not already listening; a second call starts nothing. */
    method StartListening() returns (started: bool)
      modifies this
      ensures started <==> hasRecognizer && !old(isListening)
      ensures isListening == (old(isListening) || hasRecognizer)
    {
      if hasRecognizer && !isListening {
        started := true;
        isListening := true;
      } else {
        started := false;
      }
    }

    /** `stopListening`: stops the recogniser only if it is listening. */
    method StopListening() returns (stopped: bool)
      modifies this
      ensures stopped <==> hasRecognizer && old(isListening)
      ensures isListening == (old(isListening) && !hasRecognizer)
    {
      if hasRecognizer && isListening {
        stopped := true;
        isListening := false;
      } else {
        stopped := false;
      }
    }
  }
}
