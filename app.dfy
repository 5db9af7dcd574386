/** The wooden-fish application state and its event handlers. Time is an
    explicit `now` (milliseconds) passed to every handler that reads the
    clock; the single rest timer is a pending deadline; the wisdom request is
    split into the step that issues it and the step that receives its answer. */
module App {
  import opened Wrappers
  import opened Rewards

  datatype Language = Zh | En

  /** Delay after the last interaction before the striker is put down. */
  const REST_DELAY: nat := 3000
  /** Age at which a floating text is swept away. */
  const FLOAT_LIFETIME: nat := 1200
  /** Floating texts are scattered by up to half this width around the tap. */
  const SCATTER: real := 60.0
  /** Floating texts start this far above the tap. */
  const RISE: real := 80.0

  /** A floating "+1" label; its id is the time it was created. */
  datatype FloatingText = FloatingText(id: nat, x: real, y: real, text: string)

  function Toggled(language: Language): (other: Language)
    ensures other != language
  {
    if language == Zh then En else Zh
  }

  lemma ToggleTwice(language: Language)
    ensures Toggled(Toggled(language)) == language
  {
  }

  /** The floating-merit label in each language. */
  function FloatingMerit(language: Language): string {
    if language == Zh then "功德 +1" else "Merit +1"
  }

  /** The placeholder shown while a wisdom request is in flight. */
  function Meditating(language: Language): string {
    if language == Zh then "参悟中..." else "Meditating..."
  }

  /** A floating text survives a sweep at `now` while it is younger than the
      lifetime (an id in the future counts as young). */
  predicate Alive(t: FloatingText, now: nat) {
    now - t.id < FLOAT_LIFETIME
  }

  /** The periodic sweep: keep exactly the live entries, in order. */
  function Sweep(texts: seq<FloatingText>, now: nat): (kept: seq<FloatingText>)
    ensures |kept| <= |texts|
    ensures forall t :: t in kept ==> Alive(t, now)
    ensures forall t :: multiset(kept)[t] == if Alive(t, now) then multiset(texts)[t] else 0
  {
    if texts == [] then []
    else
      assert texts == [texts[0]] + texts[1..];
      (if Alive(texts[0], now) then [texts[0]] else []) + Sweep(texts[1..], now)
  }

  /** Sweeping distributes over concatenation, so relative order is kept. */
  lemma {:induction false} SweepAppend(a: seq<FloatingText>, b: seq<FloatingText>, now: nat)
    ensures Sweep(a + b, now) == Sweep(a, now) + Sweep(b, now)
  {
    if a == [] {
      assert a + b == b;
    } else {
      assert (a + b)[0] == a[0];
      assert (a + b)[1..] == a[1..] + b;
      SweepAppend(a[1..], b, now);
    }
  }

  /** A sweep at a later time subsumes an earlier one. */
  lemma {:induction false} SweepLater(texts: seq<FloatingText>, earlier: nat, later: nat)
    requires earlier <= later
    ensures Sweep(Sweep(texts, earlier), later) == Sweep(texts, later)
  {
    if texts != [] {
      var head := if Alive(texts[0], earlier) then [texts[0]] else [];
      assert Sweep(texts, earlier) == head + Sweep(texts[1..], earlier);
      SweepAppend(head, Sweep(texts[1..], earlier), later);
      SweepLater(texts[1..], earlier, later);
      if Alive(texts[0], earlier) {
        assert head[1..] == [];
      }
      assert Sweep(head, later) == if Alive(texts[0], later) then [texts[0]] else [];
    }
  }

  /** Sweeping twice at the same time is sweeping once. */
  lemma SweepIdempotent(texts: seq<FloatingText>, now: nat)
    ensures Sweep(Sweep(texts, now), now) == Sweep(texts, now)
  {
    SweepLater(texts, now, now);
  }

  /** Every floating text carries the merit label of one of the languages. */
  predicate MeritLabel(t: FloatingText) {
    t.text == FloatingMerit(Zh) || t.text == FloatingMerit(En)
  }

  class AppState {
    var language: Language
    var totalClicks: nat
    /** Bumped once per knock to restart the striker animation. */
    var strikeTrigger: nat
    var isResting: bool
    var floatingTexts: seq<FloatingText>
    var zenQuote: string
    var isLoadingQuote: bool
    /** The pending rest timer, as the time at which it fires. */
    var restDeadline: Option<nat>

    /** The striker rests exactly when no rest timer is pending, and the
        animation counter moves in step with the click counter. */
    ghost predicate Valid()
      reads this
    {
      (isResting <==> restDeadline.None?)
      && strikeTrigger == totalClicks
      && (forall t :: t in floatingTexts ==> MeritLabel(t))
    }

    /** The inventory on display, always derived from the click count. */
    function DisplayedInventory(): (inv: Inventory)
      reads this
      ensures WellFormed(inv) && Worth(inv) == totalClicks
    {
      CalculateInventory(totalClicks)
    }

    /** The quote panel is shown while the quote is non-empty. */
    predicate QuoteShown()
      reads this
    {
      zenQuote != ""
    }

    constructor ()
      ensures Valid()
      ensures language == Zh && totalClicks == 0 && strikeTrigger == 0
      ensures isResting && restDeadline == None
      ensures floatingTexts == [] && zenQuote == "" && !isLoadingQuote
    {
      language := Zh;
      totalClicks := 0;
      strikeTrigger := 0;
      isResting := true;
      floatingTexts := [];
      zenQuote := "";
      isLoadingQuote := false;
      restDeadline := None;
    }

    /** `resetActivityTimer`, run on pointer move and pointer down: wake the
        striker and replace any pending rest timer by one due in 3000 ms. */
    method InteractionStart(now: nat)
      requires Valid()
      modifies this
      ensures Valid()
      ensures !isResting && restDeadline == Some(now + REST_DELAY)
      ensures language == old(language) && totalClicks == old(totalClicks)
      ensures strikeTrigger == old(strikeTrigger) && floatingTexts == old(floatingTexts)
      ensures zenQuote == old(zenQuote) && isLoadingQuote == old(isLoadingQuote)
    {
      isResting := false;
      restDeadline := Some(now + REST_DELAY);
    }

    /** The rest timer's callback, delivered by the clock at `now`: when the
        pending deadline has passed the striker is put down; otherwise nothing
        happens. */
    method RestTimerTick(now: nat) returns (fired: bool)
      requires Valid()
      modifies this
      ensures Valid()
      ensures fired <==> (old(restDeadline).Some? && old(restDeadline).value <= now)
      ensures fired ==> isResting && restDeadline == None
      ensures !fired ==> isResting == old(isResting) && restDeadline == old(restDeadline)
      ensures language == old(language) && totalClicks == old(totalClicks)
      ensures strikeTrigger == old(strikeTrigger) && floatingTexts == old(floatingTexts)
      ensures zenQuote == old(zenQuote) && isLoadingQuote == old(isLoadingQuote)
    {
      fired := restDeadline.Some? && restDeadline.value <= now;
      if fired {
        isResting := true;
        restDeadline := None;
      }
    }

    /** The 100 ms sweep of floating texts. */
    method SweepFloatingTexts(now: nat)
      requires Valid()
      modifies this
      ensures Valid()
      ensures floatingTexts == Sweep(old(floatingTexts), now)
      ensures language == old(language) && totalClicks == old(totalClicks)
      ensures strikeTrigger == old(strikeTrigger) && isResting == old(isResting)
      ensures restDeadline == old(restDeadline)
      ensures zenQuote == old(zenQuote) && isLoadingQuote == old(isLoadingQuote)
    {
      floatingTexts := Sweep(floatingTexts, now);
    }

    /** `handleKnock`: a tap on the fish at (`clientX`, `clientY`).
        `randX` and `randY` are the two draws of `Math.random`, in [0, 1). */
    method Knock(now: nat, clientX: real, clientY: real, randX: real, randY: real)
      requires Valid()
      requires 0.0 <= randX < 1.0 && 0.0 <= randY < 1.0
      modifies this
      ensures Valid()
      ensures totalClicks == old(totalClicks) + 1
      ensures strikeTrigger == old(strikeTrigger) + 1
      ensures DisplayedInventory() == Increment(old(DisplayedInventory()))
      ensures !isResting && restDeadline == Some(now + REST_DELAY)
      ensures |floatingTexts| == |old(floatingTexts)| + 1
      ensures floatingTexts[..|old(floatingTexts)|] == old(floatingTexts)
      ensures var t := floatingTexts[|floatingTexts| - 1];
        t == FloatingText(now, clientX + (randX - 0.5) * SCATTER,
                          clientY - RISE + (randY - 0.5) * SCATTER, FloatingMerit(language))
        && clientX - SCATTER / 2.0 <= t.x < clientX + SCATTER / 2.0
        && clientY - RISE - SCATTER / 2.0 <= t.y < clientY - RISE + SCATTER / 2.0
      ensures language == old(language)
      ensures zenQuote == old(zenQuote) && isLoadingQuote == old(isLoadingQuote)
    {
      InteractionStart(now);
      strikeTrigger := strikeTrigger + 1;
      var offsetX := (randX - 0.5) * SCATTER;
      var offsetY := (randY - 0.5) * SCATTER;
      var newText := FloatingText(now, clientX + offsetX, clientY - RISE + offsetY, FloatingMerit(language));
      floatingTexts := floatingTexts + [newText];
      KnockCarries(totalClicks);
      totalClicks := totalClicks + 1;
    }

    /** `toggleLanguage`: switch language and clear the quote. */
    method ToggleLanguage()
      requires Valid()
      modifies this
      ensures Valid()
      ensures language == Toggled(old(language)) && zenQuote == ""
      ensures totalClicks == old(totalClicks) && strikeTrigger == old(strikeTrigger)
      ensures isResting == old(isResting) && restDeadline == old(restDeadline)
      ensures floatingTexts == old(floatingTexts) && isLoadingQuote == old(isLoadingQuote)
    {
      language := Toggled(language);
      zenQuote := "";
    }

    /** The close button on the quote panel. */
    method CloseQuote()
      requires Valid()
      modifies this
      ensures Valid()
      ensures zenQuote == "" && !QuoteShown()
      ensures language == old(language) && totalClicks == old(totalClicks)
      ensures strikeTrigger == old(strikeTrigger) && isResting == old(isResting)
      ensures restDeadline == old(restDeadline)
      ensures floatingTexts == old(floatingTexts) && isLoadingQuote == old(isLoadingQuote)
    {
      zenQuote := "";
    }

    /** First half of `handleSeekWisdom`: unless a request is already in
        flight, mark one as loading, show the placeholder and return the
        request's arguments (the click count and the language). */
    method StartSeekWisdom() returns (request: Option<(nat, Language)>)
      requires Valid()
      modifies this
      ensures Valid()
      ensures old(isLoadingQuote) ==> request == None && zenQuote == old(zenQuote)
      ensures !old(isLoadingQuote) ==>
        request == Some((totalClicks, language)) && zenQuote == Meditating(language)
      ensures isLoadingQuote
      ensures language == old(language) && totalClicks == old(totalClicks)
      ensures strikeTrigger == old(strikeTrigger) && isResting == old(isResting)
      ensures restDeadline == old(restDeadline) && floatingTexts == old(floatingTexts)
    {
      if isLoadingQuote {
        return None;
      }
      isLoadingQuote := true;
      zenQuote := Meditating(language);
      request := Some((totalClicks, language));
    }

    /** Second half of `handleSeekWisdom`: the answer arrives. */
    method FinishSeekWisdom(quote: string)
      requires Valid()
      modifies this
      ensures Valid()
      ensures zenQuote == quote && !isLoadingQuote
      ensures language == old(language) && totalClicks == old(totalClicks)
      ensures strikeTrigger == old(strikeTrigger) && isResting == old(isResting)
      ensures restDeadline == old(restDeadline) && floatingTexts == old(floatingTexts)
    {
      zenQuote := quote;
      isLoadingQuote := false;
    }
  }
}
