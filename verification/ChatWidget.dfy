/** The chat window: the reply built from the best-matching how-to record,
    and the widget state (open, minimized, transcript, processing flag). */
module ChatWidget {
  import opened Text
  import opened Faqs

  datatype Sender = User | Bot

  /** A transcript entry; ids and timestamps are left out. */
  datatype Message = Message(sender: Sender, text: string)

  const Welcome: string := "\U{1F44B} Hello! " + "I'm your Digital Literacy Assistant. I can help you learn how to use digital tools like WhatsApp, Paytm, and Google Maps. What would you like to know?"

  /** How every answer starts. */
  const Opening: string := "Here's how to "
  const Fallback: string := "I'm sorry, " + "I don't have information about that yet. Could you try asking about WhatsApp, Paytm, or Google Maps features?"

  // ---------------------------------------------------------------------
  // The reply

  /** The first line of an answer: the lower-cased question with the first
      "how do i " removed, wherever it occurs, after "Here's how to " and
      before a colon. */
  function HeaderLine(question: string): (h: string)
    ensures |h| >= 15 && h[..14] == "Here's how to " && h[|h| - 1] == ':'
  {
    "Here's how to " + ReplaceFirst(Lower(question), "how do i ", "") + ":"
  }

  /** A numbered step, without its line break; steps are numbered from 1. */
  function StepText(i: nat, step: string): string {
    NatToString(i + 1) + ". " + step
  }

  /** The numbered steps, one line each, as the loop builds them. */
  function NumberedSteps(steps: seq<string>): string
    decreases |steps|
  {
    if steps == [] then ""
    else NumberedSteps(steps[..|steps| - 1]) + StepText(|steps| - 1, steps[|steps| - 1]) + "\n"
  }

  /** The full answer for a record: it opens with the header line and a
      blank line (`ReplyLines` gives its whole line structure). */
  function ReplyFor(f: FAQ): (r: string)
    ensures HeaderLine(f.question) + "\n\n" <= r
  {
    HeaderLine(f.question) + "\n\n" + NumberedSteps(f.answer)
  }

  /** `generateResponse` over a list of records: the fallback text when
      the search finds nothing; otherwise the answer of the first search
      result. Every reply is therefore either the fallback text or an
      answer opening with "Here's how to ". */
  function Respond(records: seq<FAQ>, query: string): (r: string)
    ensures r == Fallback || Opening <= r
  {
    var results := Search(records, query);
    if results == [] then Fallback
    else
      var reply := ReplyFor(results[0]);
      var h := HeaderLine(results[0].question);
      assert reply[..14] == h[..14];
      reply
  }

  /** The reply is the fallback exactly when the search finds nothing: no
      answer can be mistaken for the fallback, which opens differently. */
  lemma FallbackIffNoResults(records: seq<FAQ>, query: string)
    ensures Respond(records, query) == Fallback <==> Search(records, query) == []
  {
    var r := Respond(records, query);
    if Search(records, query) != [] {
      assert r[0] == r[..14][0] == 'H';
      assert Fallback[0] == 'I';
    }
  }

  /** One loop iteration adds the next numbered line. */
  lemma NumberedStepsSnoc(steps: seq<string>, i: nat)
    requires i < |steps|
    ensures NumberedSteps(steps[..i + 1]) == NumberedSteps(steps[..i]) + (NatToString(i + 1) + ". " + steps[i] + "\n")
  {
    assert steps[..i + 1][..i] == steps[..i];
  }

  // ---------------------------------------------------------------------
  // What the reply says

  /** Only the first matching record is used: the reply is the answer of a
      record that matches and before which no record matches. */
  lemma ReplyUsesFirstMatch(records: seq<FAQ>, query: string)
    requires Search(records, query) != []
    ensures exists i :: 0 <= i < |records| && Respond(records, query) == ReplyFor(records[i])
                        && Matches(records[i], SearchTerms(query))
                        && forall j :: 0 <= j < i ==> !Matches(records[j], SearchTerms(query))
  {
    FirstResultIsFirstMatch(records, query);
    var i :| 0 <= i < |records| && Search(records, query)[0] == records[i]
             && Matches(records[i], SearchTerms(query))
             && forall j :: 0 <= j < i ==> !Matches(records[j], SearchTerms(query));
    assert Respond(records, query) == ReplyFor(records[i]);
  }

  /** A doubled space, or a leading or trailing space, in a non-blank query
      makes every record match, so the reply is always the first record's
      answer. */
  lemma StraySpaceRepliesWithFirstRecord(records: seq<FAQ>, query: string)
    requires records != []
    requires Trim(query) != []
    requires Contains(query, "  ") || query[0] == ' ' || query[|query| - 1] == ' '
    ensures Respond(records, query) == ReplyFor(records[0])
  {
    StraySpaceReturnsAll(records, query);
  }

  // ---------------------------------------------------------------------
  // The layout of an answer

  /** The step lines, numbered from 1, in stored order. */
  function StepTexts(steps: seq<string>): (lines: seq<string>)
    ensures |lines| == |steps|
  {
    seq(|steps|, i requires 0 <= i < |steps| => StepText(i, steps[i]))
  }

  predicate NoLineBreak(s: string) {
    '\n' !in s
  }

  lemma LowerKeepsNoLineBreak(s: string)
    requires NoLineBreak(s)
    ensures NoLineBreak(Lower(s))
  {
    forall i | 0 <= i < |s| ensures Lower(s)[i] != '\n' {
      assert s[i] != '\n';
    }
  }

  lemma HeaderLineHasNoLineBreak(question: string)
    requires NoLineBreak(question)
    ensures NoLineBreak(HeaderLine(question))
  {
    var low := Lower(question);
    LowerKeepsNoLineBreak(question);
    var mid := ReplaceFirst(low, "how do i ", "");
    if Contains(low, "how do i ") {
      var k :| 0 <= k && k + 9 <= |low| && OccursAt(low, "how do i ", k) && mid == low[..k] + "" + low[k + 9..];
      forall j | 0 <= j < |mid| ensures mid[j] != '\n' {
        if j < k { assert mid[j] == low[j]; } else { assert mid[j] == low[j + 9]; }
      }
    }
    assert HeaderLine(question) == "Here's how to " + mid + ":";
  }

  lemma StepTextHasNoLineBreak(i: nat, step: string)
    requires NoLineBreak(step)
    ensures NoLineBreak(StepText(i, step))
  {
    var n := NatToString(i + 1);
    forall j | 0 <= j < |n| ensures n[j] != '\n' {
      assert IsDigit(n[j]);
    }
  }

  /** Split on line breaks, the numbered steps followed by `tail` are the
      step lines and then `tail`. */
  lemma {:induction false} SplitNumberedSteps(steps: seq<string>, tail: string)
    requires forall s :: s in steps ==> NoLineBreak(s)
    requires NoLineBreak(tail)
    ensures SplitOn(NumberedSteps(steps) + tail, '\n') == StepTexts(steps) + [tail]
    decreases |steps|
  {
    if steps == [] {
      assert NumberedSteps(steps) + tail == tail;
      SplitWithoutSeparator(tail, '\n');
    } else {
      var n := |steps|;
      var init := steps[..n - 1];
      var line := StepText(n - 1, steps[n - 1]);
      assert steps[n - 1] in steps;
      StepTextHasNoLineBreak(n - 1, steps[n - 1]);
      assert forall s :: s in init ==> s in steps;
      SplitNumberedSteps(init, line);
      assert NumberedSteps(steps) + tail == (NumberedSteps(init) + line) + ['\n'] + tail;
      SplitAtSeparator(NumberedSteps(init) + line, tail, '\n');
      SplitWithoutSeparator(tail, '\n');
      assert StepTexts(steps) == StepTexts(init) + [line];
    }
  }

  /** Read line by line, an answer is its header line, a blank line, one
      numbered line per step in stored order, and a final empty line after
      the last line break. */
  lemma {:induction false} ReplyLines(f: FAQ)
    requires NoLineBreak(f.question)
    requires forall s :: s in f.answer ==> NoLineBreak(s)
    ensures SplitOn(ReplyFor(f), '\n') == [HeaderLine(f.question), ""] + StepTexts(f.answer) + [""]
  {
    var header := HeaderLine(f.question);
    var steps := NumberedSteps(f.answer);
    HeaderLineHasNoLineBreak(f.question);
    SplitAfterBlankLine(header, steps);
    SplitNumberedSteps(f.answer, "");
    assert steps + "" == steps;
  }

  /** A line followed by a blank line: the line, an empty line, then the
      lines of the body. */
  lemma SplitAfterBlankLine(line: string, body: string)
    requires NoLineBreak(line)
    ensures SplitOn(line + "\n\n" + body, '\n') == [line, ""] + SplitOn(body, '\n')
  {
    assert line + "\n\n" + body == line + ['\n'] + ([] + ['\n'] + body);
    SplitAtSeparator(line, [] + ['\n'] + body, '\n');
    SplitAtSeparator([], body, '\n');
    SplitWithoutSeparator(line, '\n');
  }

  /** Each step line starts with its number, and the number reads back as
      the step's position counted from 1. */
  lemma StepNumber(steps: seq<string>, i: nat)
    requires i < |steps|
    ensures exists d :: StepTexts(steps)[i] == d + ". " + steps[i]
                        && (forall j :: 0 <= j < |d| ==> IsDigit(d[j])) && ParseDecimal(d) == i + 1
  {
    ParseNatToString(i + 1);
    assert StepTexts(steps)[i] == NatToString(i + 1) + ". " + steps[i];
  }

  /** A question that starts with "How do I " (in any letter case) loses
      exactly that prefix: "How do I send a photo on WhatsApp?" gives the
      header line "Here's how to send a photo on whatsapp?:". */
  lemma HeaderDropsLeadingHowDoI(question: string, rest: string)
    requires Lower(question) == "how do i " + rest
    ensures HeaderLine(question) == "Here's how to " + rest + ":"
  {
    var low := Lower(question);
    assert OccursAt(low, "how do i ", 0);
    var mid := ReplaceFirst(low, "how do i ", "");
    var k :| 0 <= k && k + 9 <= |low| && OccursAt(low, "how do i ", k)
             && (forall j :: 0 <= j < k ==> !OccursAt(low, "how do i ", j))
             && mid == low[..k] + "" + low[k + 9..];
    assert k == 0;
    assert mid == rest;
  }

  /** The first suggested question of the catalog gets the header line
      "Here's how to send a photo on whatsapp?:". */
  lemma PhotoQuestionHeader()
    ensures HeaderLine("How do I send a photo on WhatsApp?") == "Here's how to send a photo on whatsapp?:"
  {
    PhotoQuestionLower();
    HeaderDropsLeadingHowDoI("How do I send a photo on WhatsApp?", "send a photo on whatsapp?");
    PhotoHeaderText();
  }

  // The lemmas below cut the photo question into small facts about string
  // literals: one lemma on the whole literal is too costly for the solver.

  /** The header of the photo question, written as one text. */
  lemma PhotoHeaderText()
    ensures "Here's how to " + "send a photo on whatsapp?" + ":" == "Here's how to send a photo on whatsapp?:"
  {
    assert "Here's how to " + "send a photo on whatsapp?" == "Here's how to send a photo on whatsapp?";
  }

  /** Lower-casing the photo question changes only its four capitals. */
  lemma PhotoQuestionLower()
    ensures Lower("How do I send a photo on WhatsApp?") == "how do i " + "send a photo on whatsapp?"
  {
    PhotoLowerHowDoI();
    PhotoLowerSendA();
    PhotoLowerPhotoOn();
    PhotoLowerWhatsApp();
    assert Lower("How do I send a photo on WhatsApp?") == "how do i send a photo on whatsapp?";
    PhotoLowerText();
  }

  // The question lower-cased piece by piece; each position is one case.

  lemma PhotoLowerHowDoI()
    ensures forall i :: 0 <= i < 9 ==> Lower("How do I send a photo on WhatsApp?")[i] == "how do i send a photo on whatsapp?"[i]
  {
    forall i | 0 <= i < 9 ensures Lower("How do I send a photo on WhatsApp?")[i] == "how do i send a photo on whatsapp?"[i] {
      assert i == 0 || i == 1 || i == 2 || i == 3 || i == 4 || i == 5 || i == 6 || i == 7 || i == 8;
    }
  }

  lemma PhotoLowerSendA()
    ensures forall i :: 9 <= i < 17 ==> Lower("How do I send a photo on WhatsApp?")[i] == "how do i send a photo on whatsapp?"[i]
  {
    forall i | 9 <= i < 17 ensures Lower("How do I send a photo on WhatsApp?")[i] == "how do i send a photo on whatsapp?"[i] {
      assert i == 9 || i == 10 || i == 11 || i == 12 || i == 13 || i == 14 || i == 15 || i == 16;
    }
  }

  lemma PhotoLowerPhotoOn()
    ensures forall i :: 17 <= i < 25 ==> Lower("How do I send a photo on WhatsApp?")[i] == "how do i send a photo on whatsapp?"[i]
  {
    forall i | 17 <= i < 25 ensures Lower("How do I send a photo on WhatsApp?")[i] == "how do i send a photo on whatsapp?"[i] {
      assert i == 17 || i == 18 || i == 19 || i == 20 || i == 21 || i == 22 || i == 23 || i == 24;
    }
  }

  lemma PhotoLowerWhatsApp()
    ensures forall i :: 25 <= i < 34 ==> Lower("How do I send a photo on WhatsApp?")[i] == "how do i send a photo on whatsapp?"[i]
  {
    forall i | 25 <= i < 34 ensures Lower("How do I send a photo on WhatsApp?")[i] == "how do i send a photo on whatsapp?"[i] {
      assert i == 25 || i == 26 || i == 27 || i == 28 || i == 29 || i == 30 || i == 31 || i == 32 || i == 33;
    }
  }

  lemma PhotoLowerText()
    ensures "how do i send a photo on whatsapp?" == "how do i " + "send a photo on whatsapp?"
  {
  }

  /** The question mark is not removed: a question ending in '?' gives a
      header line ending in "?:". */
  lemma HeaderKeepsQuestionMark(question: string)
    requires question != [] && question[|question| - 1] == '?'
    ensures var h := HeaderLine(question); |h| >= 2 && h[|h| - 2] == '?' && h[|h| - 1] == ':'
  {
    var low := Lower(question);
    assert low[|low| - 1] == '?';
    assert "how do i "[8] == ' ';
    var mid := ReplaceFirst(low, "how do i ", "");
    RemovalKeepsLast(low, "how do i ");
    assert HeaderLine(question) == "Here's how to " + mid + ":";
  }

  /** Removing the first occurrence of a pattern whose last character
      differs from the text's last character keeps that last character. */
  lemma RemovalKeepsLast(s: string, pat: string)
    requires s != [] && pat != [] && pat[|pat| - 1] != s[|s| - 1]
    ensures var r := ReplaceFirst(s, pat, ""); r != [] && r[|r| - 1] == s[|s| - 1]
  {
    var r := ReplaceFirst(s, pat, "");
    if Contains(s, pat) {
      var k :| OccursAt(s, pat, k) && r == s[..k] + "" + s[k + |pat|..];
      assert s[k..k + |pat|][|pat| - 1] == s[k + |pat| - 1];
      assert k + |pat| < |s|;
    }
  }

  /** The `forEach` of `generateResponse`: each step is appended to the
      text as "n. step" and a line break, numbered from 1. */
  method AppendNumberedSteps(header: string, steps: seq<string>) returns (response: string)
    ensures response == header + NumberedSteps(steps)
  {
    response := header;
    var i := 0;
    while i < |steps|
      invariant 0 <= i <= |steps|
      invariant response == header + NumberedSteps(steps[..i])
    {
      var line := NatToString(i + 1) + ". " + steps[i] + "\n";
      NumberedStepsSnoc(steps, i);
      assert response + line == header + (NumberedSteps(steps[..i]) + line);
      response := response + line;
      i := i + 1;
    }
    assert steps[..i] == steps;
  }

  // ---------------------------------------------------------------------
  // The widget

  class Widget {
    /** The records replies are drawn from: the catalog. */
    const faqs: seq<FAQ>
    var isOpen: bool
    var isMinimized: bool
    /** The transcript; it only grows. */
    var messages: seq<Message>
    var isProcessing: bool
    /** The texts whose replies are scheduled and not yet delivered, oldest
        first (the pending one-second timers). */
    var scheduled: seq<string>

    /** The widget starts closed unless the page opens it. */
    constructor(propIsOpen: bool)
      ensures faqs == Catalog
      ensures isOpen == propIsOpen && !isMinimized
      ensures messages == [] && !isProcessing && scheduled == []
    {
      faqs := Catalog;
      isOpen := propIsOpen;
      isMinimized := false;
      messages := [];
      isProcessing := false;
      scheduled := [];
    }

    /** The page changed its `isOpen` property. */
    method SyncOpenProp(propIsOpen: bool)
      modifies this
      ensures isOpen == propIsOpen
      ensures isMinimized == old(isMinimized) && messages == old(messages)
      ensures isProcessing == old(isProcessing) && scheduled == old(scheduled)
    {
      isOpen := propIsOpen;
    }

    /** The suggested questions are rendered exactly when the full window
        is shown and the transcript holds one message. */
    predicate ShowsSuggestions()
      reads this
    {
      isOpen && !isMinimized && |messages| == 1
    }

    /** The welcome effect: an open, expanded window with an empty
        transcript gets the welcome message as its only message. */
    method ShowWelcome()
      modifies this
      ensures old(isOpen && !isMinimized && messages == []) ==>
                messages == [Message(Bot, Welcome)] && ShowsSuggestions()
      ensures !old(isOpen && !isMinimized && messages == []) ==> messages == old(messages)
      ensures isOpen == old(isOpen) && isMinimized == old(isMinimized)
      ensures isProcessing == old(isProcessing) && scheduled == old(scheduled)
    {
      if isOpen && !isMinimized && |messages| == 0 {
        messages := [Message(Bot, Welcome)];
      }
    }

    /** `handleSendMessage`: the user's text is appended, the processing
        flag is raised and the reply is scheduled. */
    method SendMessage(text: string)
      modifies this
      ensures messages == old(messages) + [Message(User, text)]
      ensures isProcessing
      ensures scheduled == old(scheduled) + [text]
      ensures isOpen == old(isOpen) && isMinimized == old(isMinimized)
    {
      messages := messages + [Message(User, text)];
      isProcessing := true;
      scheduled := scheduled + [text];
    }

    /** The scheduled reply arrives: the answer to the oldest pending text is
        appended and the processing flag is lowered, even if another reply
        is still pending. */
    method ReceiveReply()
      requires scheduled != []
      modifies this
      ensures messages == old(messages) + [Message(Bot, Respond(faqs, old(scheduled)[0]))]
      ensures !isProcessing
      ensures scheduled == old(scheduled)[1..]
      ensures isOpen == old(isOpen) && isMinimized == old(isMinimized)
    {
      var query := scheduled[0];
      var rest := scheduled[1..];
      var botResponse := GenerateResponse(query);
      messages := messages + [Message(Bot, botResponse)];
      scheduled := rest;
      isProcessing := false;
    }

    /** `generateResponse`: the header of the first result, then its steps
        appended one numbered line at a time; the fallback text when nothing
        matches. */
    method GenerateResponse(query: string) returns (response: string)
      ensures response == Respond(faqs, query)
    {
      var results := Search(faqs, query);
      if |results| > 0 {
        var bestMatch := results[0];
        response := AppendNumberedSteps(HeaderLine(bestMatch.question) + "\n\n", bestMatch.answer);
      } else {
        response := Fallback;
      }
    }

    /** `handleSuggestedQuestionClick`: a suggestion is sent like typed text. */
    method SuggestedQuestionClick(question: string)
      modifies this
      ensures messages == old(messages) + [Message(User, question)]
      ensures isProcessing
      ensures scheduled == old(scheduled) + [question]
      ensures isOpen == old(isOpen) && isMinimized == old(isMinimized)
    {
      SendMessage(question);
    }

    /** `handleToggleChat`: a minimized window is expanded; otherwise the
        window is opened or closed. */
    method ToggleChat()
      modifies this
      ensures old(isMinimized) ==> !isMinimized && isOpen == old(isOpen)
      ensures !old(isMinimized) ==> isOpen == !old(isOpen) && !isMinimized
      ensures messages == old(messages) && isProcessing == old(isProcessing) && scheduled == old(scheduled)
    {
      if isMinimized {
        isMinimized := false;
      } else {
        isOpen := !isOpen;
      }
    }

    /** `handleMinimize`. */
    method Minimize()
      modifies this
      ensures isMinimized && isOpen == old(isOpen)
      ensures messages == old(messages) && isProcessing == old(isProcessing) && scheduled == old(scheduled)
    {
      isMinimized := true;
    }

    /** `handleClose`: closed and not minimized; the transcript is kept. */
    method Close()
      modifies this
      ensures !isOpen && !isMinimized
      ensures messages == old(messages) && isProcessing == old(isProcessing) && scheduled == old(scheduled)
    {
      isOpen := false;
      isMinimized := false;
    }
  }
}
