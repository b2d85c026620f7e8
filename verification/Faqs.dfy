/** The knowledge base of the chat assistant: a fixed catalog of how-to
    records and the keyword matcher `searchFAQs` over it. */
module Faqs {
  import opened Text

  /** The tool a record is about; its name is matched like a tag. */
  datatype Tool = WhatsApp | Paytm | GoogleMaps | General

  function ToolName(t: Tool): string {
    match t
    case WhatsApp => "whatsapp"
    case Paytm => "paytm"
    case GoogleMaps => "google-maps"
    case General => "general"
  }

  /** One how-to record: the question it answers, the steps of the answer in
      order, its tool and its lower-case keyword tags. */
  datatype FAQ = FAQ(id: string, question: string, answer: seq<string>, tool: Tool, tags: seq<string>)

  /** The catalog, in its fixed order. */
  const Catalog: seq<FAQ> := [
    FAQ("whatsapp-send-photo", "How do I send a photo on WhatsApp?",
      ["Open the chat with the person you want to send a photo to.",
       "Tap the attachment (paperclip) icon in the message bar.",
       "Select \"Gallery\" or \"Camera\" depending on whether you want to send an existing photo or take a new one.",
       "Select the photo you want to send.",
       "Add a caption if you want (optional).",
       "Tap the send button (arrow icon)."],
      WhatsApp, ["photo", "image", "send", "share", "picture", "whatsapp"]),
    FAQ("whatsapp-video-call", "How do I make a video call on WhatsApp?",
      ["Open the chat with the person you want to video call.",
       "Tap the video call icon (camera) at the top right of the screen.",
       "Wait for the person to answer.",
       "To end the call, tap the red hang up button."],
      WhatsApp, ["video", "call", "chat", "whatsapp"]),
    FAQ("whatsapp-group", "How do I create a group on WhatsApp?",
      ["Open WhatsApp and go to the Chats tab.",
       "Tap the \"New Chat\" icon (message icon) at the bottom right.",
       "Select \"New Group\".",
       "Select the contacts you want to add to the group.",
       "Tap the arrow icon at the bottom right after selecting contacts.",
       "Enter a group name and optional group icon.",
       "Tap \"Create\" or the checkmark to finish."],
      WhatsApp, ["group", "create", "multiple", "contacts", "whatsapp"]),
    FAQ("paytm-money-transfer", "How do I send money using Paytm?",
      ["Open the Paytm app on your phone.",
       "Tap on \"Send Money\" on the home screen.",
       "Enter the mobile number or select a contact from your phonebook.",
       "Enter the amount you want to send.",
       "Add a message (optional).",
       "Tap \"Pay\" to proceed.",
       "Confirm the payment using your Paytm PIN or biometric authentication."],
      Paytm, ["money", "transfer", "send", "payment", "paytm"]),
    FAQ("paytm-bill-payment", "How do I pay bills with Paytm?",
      ["Open the Paytm app on your phone.",
       "Scroll down or search for \"Bill Payments\".",
       "Select the type of bill you want to pay (Electricity, Water, Gas, etc.).",
       "Select your service provider.",
       "Enter your customer ID or billing details.",
       "The bill amount will be fetched automatically.",
       "Tap \"Proceed to Pay\".",
       "Complete the payment using your preferred payment method."],
      Paytm, ["bill", "payment", "utility", "paytm"]),
    FAQ("paytm-recharge", "How do I recharge my mobile on Paytm?",
      ["Open the Paytm app on your phone.",
       "Tap on \"Mobile Recharge\" on the home screen.",
       "Enter your mobile number or select from saved numbers.",
       "Select your operator and circle (location).",
       "Choose a recharge plan or enter the amount.",
       "Tap \"Proceed to Recharge\".",
       "Complete the payment using your preferred payment method."],
      Paytm, ["recharge", "mobile", "prepaid", "paytm"]),
    FAQ("gmaps-navigation", "How do I navigate to a place using Google Maps?",
      ["Open the Google Maps app on your phone.",
       "Tap on the search bar at the top.",
       "Enter the destination address or name.",
       "Tap on \"Directions\".",
       "Choose your mode of transport (driving, public transit, walking, etc.).",
       "Tap \"Start\" to begin navigation.",
       "Follow the voice and visual directions to reach your destination."],
      GoogleMaps, ["navigation", "directions", "route", "maps", "google"]),
    FAQ("gmaps-save-location", "How do I save a location on Google Maps?",
      ["Open the Google Maps app on your phone.",
       "Search for the location you want to save.",
       "Tap on the location to open its details.",
       "Tap on the \"Save\" button (bookmark icon).",
       "Choose a list to save to (Favorites, Want to go, Starred places, etc.).",
       "The location will now be saved in your Google Maps account."],
      GoogleMaps, ["save", "bookmark", "favorite", "location", "maps", "google"]),
    FAQ("gmaps-offline", "How do I use Google Maps offline?",
      ["Open the Google Maps app on your phone.",
       "Tap on your profile picture or initial in the top right.",
       "Tap \"Offline maps\".",
       "Tap \"Select your own map\".",
       "Adjust the area you want to download by pinching and zooming.",
       "Tap \"Download\".",
       "The selected area will be available offline for 30 days."],
      GoogleMaps, ["offline", "download", "no internet", "maps", "google"]),
    FAQ("general-wifi", "How do I connect to WiFi?",
      ["On your phone, go to Settings.",
       "Tap on \"WiFi\" or \"Connections\" and then \"WiFi\".",
       "Toggle WiFi on if it's off.",
       "Wait for the list of available networks to appear.",
       "Tap on the network you want to connect to.",
       "Enter the password if required.",
       "Tap \"Connect\" or \"Join\"."],
      General, ["wifi", "internet", "connect", "network"]),
    FAQ("general-bluetooth", "How do I connect Bluetooth devices?",
      ["On your phone, go to Settings.",
       "Tap on \"Bluetooth\" or \"Connections\" and then \"Bluetooth\".",
       "Toggle Bluetooth on if it's off.",
       "Make sure your Bluetooth device is in pairing mode (refer to the device's manual).",
       "Wait for the device to appear in the list of available devices.",
       "Tap on the device name to connect.",
       "Follow any additional instructions if prompted."],
      General, ["bluetooth", "connect", "pair", "device"])
  ]

  /** Ids are unique and every record has at least one step. */
  lemma CatalogWellFormed()
    ensures forall i, j :: 0 <= i < j < |Catalog| ==> Catalog[i].id != Catalog[j].id
    ensures forall i :: 0 <= i < |Catalog| ==> |Catalog[i].answer| > 0
  {
  }

  /** The query lower-cased and split on the single character ' ' (not on
      whitespace in general), so doubled, leading or trailing spaces give
      empty terms. */
  function SearchTerms(query: string): (terms: seq<string>)
    ensures |terms| >= 1
    ensures forall t :: t in terms ==> ' ' !in t
    ensures JoinOn(terms, ' ') == Lower(query)
  {
    JoinSplit(Lower(query), ' ');
    SplitOn(Lower(query), ' ')
  }

  /** One term hits a record when it is a substring of the lower-cased
      question, of a tag (tags are compared as stored) or of the tool name. */
  predicate TermHits(f: FAQ, t: string) {
    Contains(Lower(f.question), t)
    || (exists tag | tag in f.tags :: Contains(tag, t))
    || Contains(ToolName(f.tool), t)
  }

  /** `questionMatch || tagMatch || toolMatch`: each of the three is "some
      term hits this field", so together they say that some term hits the
      record. With no terms nothing matches; the empty term matches every
      record, and the tool's own name matches every record of that tool. */
  predicate Matches(f: FAQ, terms: seq<string>)
    ensures terms == [] ==> !Matches(f, terms)
    ensures "" in terms ==> Matches(f, terms)
    ensures ToolName(f.tool) in terms ==> Matches(f, terms)
  {
    assert TermHits(f, "") && TermHits(f, ToolName(f.tool));
    exists t | t in terms :: TermHits(f, t)
  }

  /** `records.filter(...)` with the matching test above. */
  function Filter(records: seq<FAQ>, terms: seq<string>): (r: seq<FAQ>)
    ensures |r| <= |records|
    ensures forall f :: f in r ==> f in records && Matches(f, terms)
    decreases |records|
  {
    if records == [] then []
    else (if Matches(records[0], terms) then [records[0]] else []) + Filter(records[1..], terms)
  }

  /** `searchFAQs` over a list of records: nothing for a blank query,
      otherwise the matching records in list order. */
  function Search(records: seq<FAQ>, query: string): (r: seq<FAQ>)
    ensures Trim(query) == [] ==> r == []
    ensures forall f :: f in r ==> f in records
  {
    if Trim(query) == [] then [] else Filter(records, SearchTerms(query))
  }

  /** `searchFAQs(query)` on the catalog. The properties below are proved
      for `Search` over any record list, the catalog included. */
  function SearchFAQs(query: string): seq<FAQ> {
    Search(Catalog, query)
  }

  // ---------------------------------------------------------------------
  // The filter keeps exactly the matching records, in order

  ghost predicate Increasing(idx: seq<nat>) {
    forall k, l :: 0 <= k < l < |idx| ==> idx[k] < idx[l]
  }

  /** `r` lists the records of `s` that match, each once, in the order of
      `s`: `idx` picks them out and skips no matching index. */
  ghost predicate SelectsMatching(r: seq<FAQ>, s: seq<FAQ>, terms: seq<string>, idx: seq<nat>) {
    && |idx| == |r|
    && Increasing(idx)
    && (forall k :: 0 <= k < |idx| ==> idx[k] < |s| && r[k] == s[idx[k]])
    && (forall i :: 0 <= i < |s| ==> (Matches(s[i], terms) <==> i in idx))
  }

  /** No index below the first of an increasing list occurs in it. */
  lemma IncreasingStartsAtMin(idx: seq<nat>, j: nat)
    requires Increasing(idx) && |idx| > 0 && j < idx[0]
    ensures j !in idx
  {
    forall k | 0 <= k < |idx| ensures idx[k] != j {
      if k > 0 {
        assert idx[0] < idx[k];
      }
    }
  }

  function Shift(idx: seq<nat>): (r: seq<nat>)
    ensures |r| == |idx| && forall k :: 0 <= k < |idx| ==> r[k] == idx[k] + 1
  {
    seq(|idx|, k requires 0 <= k < |idx| => idx[k] + 1)
  }

  lemma ShiftMember(idx: seq<nat>, i: nat)
    ensures i in Shift(idx) <==> i > 0 && (i - 1) in idx
  {
    if i in Shift(idx) {
      var k :| 0 <= k < |idx| && Shift(idx)[k] == i;
    }
    if i > 0 && (i - 1) in idx {
      var k :| 0 <= k < |idx| && idx[k] == i - 1;
      assert Shift(idx)[k] == i;
    }
  }

  lemma ShiftIncreasing(idx: seq<nat>)
    requires Increasing(idx)
    ensures Increasing(Shift(idx)) && Increasing([0] + Shift(idx))
  {
    var sh := Shift(idx);
    forall k, l | 0 <= k < l < |[0] + sh| ensures ([0] + sh)[k] < ([0] + sh)[l] {
      if k > 0 { assert idx[k - 1] < idx[l - 1]; }
    }
  }

  /** The indices for `s` from those for its tail. */
  function StepIndices(s: seq<FAQ>, terms: seq<string>, idx': seq<nat>): seq<nat>
    requires s != []
  {
    (if Matches(s[0], terms) then [0] else []) + Shift(idx')
  }

  lemma StepMembership(s: seq<FAQ>, terms: seq<string>, idx': seq<nat>)
    requires s != []
    requires forall i :: 0 <= i < |s[1..]| ==> (Matches(s[1..][i], terms) <==> i in idx')
    ensures forall i :: 0 <= i < |s| ==> (Matches(s[i], terms) <==> i in StepIndices(s, terms, idx'))
  {
    forall i | 0 <= i < |s| ensures Matches(s[i], terms) <==> i in StepIndices(s, terms, idx') {
      ShiftMember(idx', i);
      if i > 0 {
        assert s[i] == s[1..][i - 1];
      }
    }
  }

  lemma StepPositions(s: seq<FAQ>, terms: seq<string>, idx': seq<nat>)
    requires s != []
    requires |idx'| == |Filter(s[1..], terms)|
    requires forall k :: 0 <= k < |idx'| ==> idx'[k] < |s[1..]| && Filter(s[1..], terms)[k] == s[1..][idx'[k]]
    ensures |StepIndices(s, terms, idx')| == |Filter(s, terms)|
    ensures forall k :: 0 <= k < |StepIndices(s, terms, idx')| ==>
      StepIndices(s, terms, idx')[k] < |s| && Filter(s, terms)[k] == s[StepIndices(s, terms, idx')[k]]
  {
    var r' := Filter(s[1..], terms);
    assert s == [s[0]] + s[1..];
    if Matches(s[0], terms) {
      assert Filter(s, terms) == [s[0]] + r';
      assert StepIndices(s, terms, idx') == [0] + Shift(idx');
      KeptPositions(s[0], s[1..], r', idx');
    } else {
      assert Filter(s, terms) == [] + r' == r';
      assert StepIndices(s, terms, idx') == [] + Shift(idx') == Shift(idx');
      SkippedPositions(s[0], s[1..], r', idx');
    }
  }

  /** Positions of `r` in `t`, one further on in `[x] + t`, and `x` itself
      at position 0. */
  lemma KeptPositions(x: FAQ, t: seq<FAQ>, r: seq<FAQ>, idx: seq<nat>)
    requires |idx| == |r|
    requires forall k :: 0 <= k < |idx| ==> idx[k] < |t| && r[k] == t[idx[k]]
    ensures |[0] + Shift(idx)| == |[x] + r|
    ensures forall k :: 0 <= k < |[0] + Shift(idx)| ==>
      ([0] + Shift(idx))[k] < |[x] + t| && ([x] + r)[k] == ([x] + t)[([0] + Shift(idx))[k]]
  {
    var sh := Shift(idx);
    forall k | 0 < k < |[0] + sh| ensures ([0] + sh)[k] < |[x] + t| && ([x] + r)[k] == ([x] + t)[([0] + sh)[k]] {
      assert ([0] + sh)[k] == sh[k - 1] == idx[k - 1] + 1;
      assert ([x] + r)[k] == r[k - 1] == t[idx[k - 1]];
    }
  }

  /** Positions of `r` in `t`, one further on in `[x] + t`. */
  lemma SkippedPositions(x: FAQ, t: seq<FAQ>, r: seq<FAQ>, idx: seq<nat>)
    requires |idx| == |r|
    requires forall k :: 0 <= k < |idx| ==> idx[k] < |t| && r[k] == t[idx[k]]
    ensures |Shift(idx)| == |r|
    ensures forall k :: 0 <= k < |Shift(idx)| ==> Shift(idx)[k] < |[x] + t| && r[k] == ([x] + t)[Shift(idx)[k]]
  {
  }

  lemma {:induction false} FilterSelectsMatching(s: seq<FAQ>, terms: seq<string>)
    ensures exists idx :: SelectsMatching(Filter(s, terms), s, terms, idx)
    decreases |s|
  {
    if s == [] {
      assert Filter(s, terms) == [];
      assert SelectsMatching(Filter(s, terms), s, terms, []);
    } else {
      FilterSelectsMatching(s[1..], terms);
      var idx' :| SelectsMatching(Filter(s[1..], terms), s[1..], terms, idx');
      StepSelects(s, terms, idx');
    }
  }

  /** The indices for the tail, shifted and preceded by 0 when the head
      matches, select the filtered list from the whole list. */
  lemma StepSelects(s: seq<FAQ>, terms: seq<string>, idx': seq<nat>)
    requires s != []
    requires SelectsMatching(Filter(s[1..], terms), s[1..], terms, idx')
    ensures SelectsMatching(Filter(s, terms), s, terms, StepIndices(s, terms, idx'))
  {
    ShiftIncreasing(idx');
    StepMembership(s, terms, idx');
    StepPositions(s, terms, idx');
  }

  /** A record is returned exactly when the query is not blank and the record
      is in the list and matches one of the terms. */
  lemma ReturnedIffMatches(records: seq<FAQ>, query: string, f: FAQ)
    ensures f in Search(records, query) <==> Trim(query) != [] && f in records && Matches(f, SearchTerms(query))
  {
    var terms := SearchTerms(query);
    if Trim(query) != [] && f in records && Matches(f, terms) {
      var r := Filter(records, terms);
      FilterSelectsMatching(records, terms);
      var idx :| SelectsMatching(r, records, terms, idx);
      var i :| 0 <= i < |records| && records[i] == f;
      assert i in idx;
      var k :| 0 <= k < |idx| && idx[k] == i;
      assert r[k] == f;
    }
  }

  /** The results are the matching records in list order: each matching
      record is returned once, and an earlier record comes before a later
      one. */
  lemma ResultsInCatalogOrder(records: seq<FAQ>, query: string)
    requires Trim(query) != []
    ensures exists idx :: SelectsMatching(Search(records, query), records, SearchTerms(query), idx)
  {
    var terms := SearchTerms(query);
    var r := Filter(records, terms);
    FilterSelectsMatching(records, terms);
    var idx :| SelectsMatching(r, records, terms, idx);
    assert Search(records, query) == r;
  }

  /** The first result, when there is one, is the first record of the list
      that matches; this is the record the chat reply is built from. */
  lemma FirstResultIsFirstMatch(records: seq<FAQ>, query: string)
    requires Search(records, query) != []
    ensures exists i :: 0 <= i < |records| && Search(records, query)[0] == records[i]
                        && Matches(records[i], SearchTerms(query))
                        && forall j :: 0 <= j < i ==> !Matches(records[j], SearchTerms(query))
  {
    var terms := SearchTerms(query);
    var r := Filter(records, terms);
    FilterSelectsMatching(records, terms);
    var idx :| SelectsMatching(r, records, terms, idx);
    var i := idx[0];
    assert r[0] == records[i];
    forall j | 0 <= j < i ensures !Matches(records[j], terms) {
      IncreasingStartsAtMin(idx, j);
    }
    assert Matches(records[i], terms);
  }

  // ---------------------------------------------------------------------
  // Consequences of the matching rule

  /** Letter case of the query does not matter: queries that lower-case to
      the same text give the same results. */
  lemma CaseInsensitive(records: seq<FAQ>, q1: string, q2: string)
    requires Lower(q1) == Lower(q2)
    ensures Search(records, q1) == Search(records, q2)
  {
    BlankIffLowerBlank(q1);
    BlankIffLowerBlank(q2);
    TrimEmptyIffBlank(q1);
    TrimEmptyIffBlank(q2);
  }

  lemma BlankIffLowerBlank(q: string)
    ensures Blank(q) <==> Blank(Lower(q))
  {
    if Blank(Lower(q)) {
      forall i | 0 <= i < |q| ensures IsWhitespace(q[i]) {
        assert IsWhitespace(Lower(q)[i]);
      }
    }
  }

  lemma {:induction false} FilterKeepsAll(s: seq<FAQ>, terms: seq<string>)
    requires forall f :: f in s ==> Matches(f, terms)
    ensures Filter(s, terms) == s
    decreases |s|
  {
    if s != [] {
      FilterKeepsAll(s[1..], terms);
    }
  }

  /** An empty term matches every record, because every string includes the
      empty string: a non-blank query whose split yields "" returns every
      record. */
  lemma EmptyTermReturnsAll(records: seq<FAQ>, query: string)
    requires Trim(query) != []
    requires "" in SearchTerms(query)
    ensures Search(records, query) == records
  {
    forall f | f in records ensures Matches(f, SearchTerms(query)) {
    }
    FilterKeepsAll(records, SearchTerms(query));
  }

  /** Hence a doubled space anywhere, or a leading or trailing space, in a
      non-blank query makes it return every record. */
  lemma StraySpaceReturnsAll(records: seq<FAQ>, query: string)
    requires Trim(query) != []
    requires Contains(query, "  ") || query[0] == ' ' || query[|query| - 1] == ' '
    ensures Search(records, query) == records
  {
    if Contains(query, "  ") {
      DoubledSpaceGivesEmptyTerm(query);
    } else if query[0] == ' ' {
      LeadingSpaceGivesEmptyTerm(query);
    } else {
      TrailingSpaceGivesEmptyTerm(query);
    }
    EmptyTermReturnsAll(records, query);
  }

  lemma DoubledSpaceGivesEmptyTerm(query: string)
    requires Contains(query, "  ")
    ensures "" in SearchTerms(query)
  {
    LowerPreservesContains(query, "  ");
    assert Lower("  ") == "  ";
    DoubledSeparatorGivesEmptyPart(Lower(query), ' ');
  }

  lemma LeadingSpaceGivesEmptyTerm(query: string)
    requires query != [] && query[0] == ' '
    ensures "" in SearchTerms(query)
  {
    var low := Lower(query);
    assert low[0] == ' ';
    assert SearchTerms(query)[0] == "";
  }

  lemma TrailingSpaceGivesEmptyTerm(query: string)
    requires query != [] && query[|query| - 1] == ' '
    ensures "" in SearchTerms(query)
  {
    var low := Lower(query);
    assert low[|low| - 1] == ' ';
    TrailingSeparatorGivesEmptyPart(low, ' ');
    var terms := SplitOn(low, ' ');
    assert terms[|terms| - 1] == "";
  }

  /** A term with a non-whitespace character makes the query non-blank. */
  lemma NonBlankTermMeansNonBlankQuery(query: string, t: string)
    requires t in SearchTerms(query) && !Blank(t)
    ensures Trim(query) != []
  {
    var low := Lower(query);
    var terms := SearchTerms(query);
    JoinSplit(low, ' ');
    var k :| 0 <= k < |terms| && terms[k] == t;
    JoinHasPart(terms, ' ', k);
    var i :| 0 <= i <= |low| && OccursAt(low, t, i);
    var m :| 0 <= m < |t| && !IsWhitespace(t[m]);
    assert low[i + m] == t[m];
    BlankIffLowerBlank(query);
    TrimEmptyIffBlank(query);
  }

  /** A query with a tool's name as a term ("whatsapp", "paytm",
      "google-maps", "general") returns every record of that tool, whatever
      its question and tags say. */
  lemma ToolTermFindsToolRecords(records: seq<FAQ>, query: string, tool: Tool)
    requires ToolName(tool) in SearchTerms(query)
    ensures forall f :: f in records && f.tool == tool ==> f in Search(records, query)
  {
    assert !IsWhitespace(ToolName(tool)[0]);
    NonBlankTermMeansNonBlankQuery(query, ToolName(tool));
    forall f | f in records && f.tool == tool ensures f in Search(records, query) {
      ReturnedIffMatches(records, query, f);
    }
  }

  /** Every part of a join occurs in it. */
  lemma {:induction false} JoinHasPart(parts: seq<string>, sep: char, k: nat)
    requires |parts| >= 1 && k < |parts|
    ensures Contains(JoinOn(parts, sep), parts[k])
    decreases |parts|
  {
    if |parts| == 1 {
      assert Contains(parts[0], parts[0]);
    } else if k == 0 {
      var rest := [sep] + JoinOn(parts[1..], sep);
      assert Contains(parts[0], parts[0]);
      ContainsInConcat(parts[0], rest, parts[0]);
      assert JoinOn(parts, sep) == parts[0] + rest;
    } else {
      JoinHasPart(parts[1..], sep, k - 1);
      assert parts[1..][k - 1] == parts[k];
      ContainsInConcat(parts[0] + [sep], JoinOn(parts[1..], sep), parts[k]);
    }
  }
}
