/** The step-by-step tutorials: a cursor over the steps of the selected
    tutorial, the progress updates it triggers, and the pure label and
    colour choices of the tutorial cards. */
module Tutorials {
  import opened Wrappers
  import opened Progress

  datatype Tutorial = Tutorial(id: string, title: string, steps: seq<string>, difficulty: string)

  /** The tutorials offered, in display order. */
  const Catalog: seq<Tutorial> := [
    Tutorial("whatsapp-basics", "WhatsApp Basics",
      ["Open WhatsApp on your phone",
       "Tap on a contact to start chatting",
       "Type your message in the text box",
       "Tap the send button (arrow icon)",
       "To send a photo, tap the attachment icon",
       "Select Gallery or Camera",
       "Choose your photo and tap send"],
      "beginner"),
    Tutorial("paytm-payment", "Making Payments with Paytm",
      ["Open the Paytm app",
       "Tap on \"Send Money\"",
       "Enter the recipient's mobile number",
       "Enter the amount to send",
       "Add a note (optional)",
       "Tap \"Pay\" to proceed",
       "Enter your Paytm PIN to confirm"],
      "beginner"),
    Tutorial("google-maps-navigation", "Navigate with Google Maps",
      ["Open Google Maps app",
       "Tap the search bar at the top",
       "Enter your destination",
       "Tap \"Directions\"",
       "Choose your transport mode",
       "Tap \"Start\" to begin navigation",
       "Follow the voice and visual directions"],
      "beginner")
  ]

  /** Every tutorial has steps, so the cursor always has a step to show,
      and the ids are distinct. */
  lemma CatalogWellFormed()
    ensures forall t :: t in Catalog ==> |t.steps| > 0
    ensures forall i, j :: 0 <= i < j < |Catalog| ==> Catalog[i].id != Catalog[j].id
  {
  }

  // ---------------------------------------------------------------------
  // Card labels and colours

  /** `getDifficultyColor`: the badge classes for a difficulty; anything
      other than the three known levels, and only that, is gray. */
  function DifficultyColor(difficulty: string): (c: string)
    ensures c == "text-gray-600 bg-gray-100" <==>
              difficulty != "beginner" && difficulty != "intermediate" && difficulty != "advanced"
  {
    assert "text-gray-600 bg-gray-100"[5] == 'g' && "text-gray-600 bg-gray-100"[7] == 'a';
    assert "text-green-600 bg-green-100"[7] == 'e';
    assert "text-yellow-600 bg-yellow-100"[5] == 'y' && "text-red-600 bg-red-100"[5] == 'r';
    match difficulty
    case "beginner" => "text-green-600 bg-green-100"
    case "intermediate" => "text-yellow-600 bg-yellow-100"
    case "advanced" => "text-red-600 bg-red-100"
    case _ => "text-gray-600 bg-gray-100"
  }

  /** The three levels get three different colours. */
  lemma DifficultyColorsDistinct()
    ensures DifficultyColor("beginner") != DifficultyColor("intermediate")
    ensures DifficultyColor("beginner") != DifficultyColor("advanced")
    ensures DifficultyColor("intermediate") != DifficultyColor("advanced")
  {
    assert "text-green-600 bg-green-100"[5] == 'g';
    assert "text-yellow-600 bg-yellow-100"[5] == 'y';
    assert "text-red-600 bg-red-100"[5] == 'r';
  }

  /** The label of a card's button: completion decides first, then
      whether the tutorial was opened; the three labels differ. */
  function CardLabel(isCompleted: bool, isViewed: bool): (caption: string)
    ensures caption == "Review Tutorial" <==> isCompleted
    ensures caption == "Continue" <==> !isCompleted && isViewed
    ensures caption == "Start Tutorial" <==> !isCompleted && !isViewed
  {
    assert "Continue"[0] != "Review Tutorial"[0] && "Continue"[0] != "Start Tutorial"[0];
    assert "Review Tutorial"[0] != "Start Tutorial"[0];
    if isCompleted then "Review Tutorial" else if isViewed then "Continue" else "Start Tutorial"
  }

  function LabelFor(p: UserProgress, id: string): string {
    CardLabel(id in p.completedTutorials, id in p.viewedTutorials)
  }

  /** The "In Progress" badge: viewed and not completed. */
  predicate InProgress(p: UserProgress, id: string) {
    id in p.viewedTutorials && id !in p.completedTutorials
  }

  /** While every completed tutorial was viewed, a card says "Continue"
      exactly when it shows the "In Progress" badge, "Review Tutorial"
      exactly when it is completed, and "Start Tutorial" exactly when it was
      never opened. */
  lemma LabelAgreesWithProgress(p: UserProgress, id: string)
    requires CompletedWereViewed(p)
    ensures LabelFor(p, id) == "Continue" <==> InProgress(p, id)
    ensures LabelFor(p, id) == "Review Tutorial" <==> id in p.completedTutorials
    ensures LabelFor(p, id) == "Start Tutorial" <==> id !in p.viewedTutorials
  {
  }

  /** Opening a tutorial turns a "Start Tutorial" card into "Continue";
      completing it turns any card into "Review Tutorial". */
  lemma LabelAfterUpdates(p: UserProgress, id: string)
    ensures id !in p.completedTutorials ==> LabelFor(MarkViewed(p, id), id) == "Continue"
    ensures LabelFor(MarkCompleted(p, id), id) == "Review Tutorial"
  {
  }

  // ---------------------------------------------------------------------
  // The step cursor

  class TutorialsView {
    /** The progress hook the view writes to. */
    const store: ProgressStore
    var selected: Option<Tutorial>
    var currentStep: nat

    /** While a tutorial is open, the cursor is on one of its steps. */
    predicate Valid()
      reads this
    {
      selected.Some? ==> currentStep < |selected.value.steps|
    }

    constructor(store: ProgressStore)
      ensures this.store == store && selected.None? && currentStep == 0
      ensures Valid()
    {
      this.store := store;
      selected := None;
      currentStep := 0;
    }

    /** The step shown, "Step n of m". */
    function CurrentStepText(): string
      requires Valid() && selected.Some?
      reads this
    {
      selected.value.steps[currentStep]
    }

    /** The Complete button replaces Next on the last step. */
    predicate OffersComplete()
      reads this
    {
      selected.Some? && currentStep == |selected.value.steps| - 1
    }

    /** `handleTutorialSelect`: open the tutorial on its first step and mark
        it viewed; the announcement is returned. */
    method SelectTutorial(t: Tutorial) returns (spoken: string)
      requires |t.steps| > 0
      modifies this, store
      ensures selected == Some(t) && currentStep == 0
      ensures store.progress == MarkViewed(old(store.progress), t.id)
      ensures spoken == "Starting tutorial: " + t.title
      ensures Valid()
    {
      selected := Some(t);
      currentStep := 0;
      store.MarkTutorialViewed(t.id);
      spoken := "Starting tutorial: " + t.title;
    }

    /** `handleNextStep`: advance unless no tutorial is open or the cursor
        is on the last step; the new step is read out. */
    method NextStep() returns (spoken: Option<string>)
      modifies this
      ensures selected == old(selected)
      ensures old(selected.Some? && currentStep < |selected.value.steps| - 1) ==>
                currentStep == old(currentStep) + 1 && spoken == Some(CurrentStepText())
      ensures !old(selected.Some? && currentStep < |selected.value.steps| - 1) ==>
                currentStep == old(currentStep) && spoken.None?
      ensures old(Valid() && selected.Some?) ==> (currentStep == old(currentStep) <==> old(OffersComplete()))
      ensures old(Valid()) ==> Valid()
    {
      if selected.Some? && currentStep < |selected.value.steps| - 1 {
        currentStep := currentStep + 1;
        spoken := Some(selected.value.steps[currentStep]);
      } else {
        spoken := None;
      }
    }

    /** `handlePreviousStep`: step back unless on the first step; the step
        is read out only if a tutorial is open. */
    method PreviousStep() returns (spoken: Option<string>)
      modifies this
      ensures selected == old(selected)
      ensures old(currentStep) > 0 ==> currentStep == old(currentStep) - 1
      ensures old(currentStep) == 0 ==> currentStep == 0 && spoken.None?
      ensures spoken.Some? <==> old(currentStep) > 0 && selected.Some?
      ensures old(Valid()) ==> Valid() && (spoken.Some? ==> spoken.value == CurrentStepText())
    {
      spoken := None;
      if currentStep > 0 {
        currentStep := currentStep - 1;
        if selected.Some? {
          spoken := Some(StepOrEmpty(selected.value.steps, currentStep));
        }
      }
    }

    /** `handleCompleteTutorial`: mark the open tutorial completed, close it
        and rewind the cursor; with nothing open nothing happens. */
    method CompleteTutorial() returns (spoken: Option<string>)
      modifies this, store
      ensures old(selected).Some? ==>
                store.progress == MarkCompleted(old(store.progress), old(selected).value.id)
                && selected.None? && currentStep == 0
                && spoken == Some("Tutorial completed! Well done!")
      ensures old(selected).None? ==>
                store.progress == old(store.progress) && selected.None?
                && currentStep == old(currentStep) && spoken.None?
      ensures Valid()
    {
      if selected.Some? {
        store.MarkTutorialCompleted(selected.value.id);
        spoken := Some("Tutorial completed! Well done!");
        selected := None;
        currentStep := 0;
      } else {
        spoken := None;
      }
    }

    /** The "Back to Tutorials" button closes the tutorial but leaves the
        cursor where it was. */
    method BackToTutorials()
      modifies this
      ensures selected.None? && currentStep == old(currentStep)
      ensures Valid()
    {
      selected := None;
    }
  }

  /** `steps[i]`, or the empty string past the end (JavaScript yields
      `undefined` there). */
  function StepOrEmpty(steps: seq<string>, i: nat): string {
    if i < |steps| then steps[i] else ""
  }
}
