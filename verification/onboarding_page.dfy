/** The onboarding wizard: three steps (business name; phone and address;
    GST), the Continue / Back / Skip controls, the hand-over to the store when
    the wizard finishes, and the redirect rule of the page. */
module OnboardingPage {
  import opened Common
  import opened AppStore

  /** `STEPS.length - 1`. */
  const LastStep: nat := 2

  const DefaultBusinessName := "My Business"

  datatype Wizard = Wizard(step: nat, businessName: string, phone: string, gst: string, address: string)

  const Start := Wizard(0, "", "", "", "")

  /** What the user can do. The inputs exist only on their own step: the name
      on step 0, phone and address on step 1, GST on step 2; Enter is handled
      by the name input only. */
  datatype Event =
    | EditName(text: string)
    | EditPhone(text: string)
    | EditAddress(text: string)
    | EditGst(text: string)
    | Next
    | Enter
    | Back
    | Skip

  datatype Outcome = Continue(w: Wizard) | Finished(info: OnboardingInfo)

  /** `canProceed`: step 0 needs a name that is not blank; later steps always
      may proceed. */
  predicate CanProceed(w: Wizard) {
    w.step == 0 ==> Trim(w.businessName) != ""
  }

  /** `handleFinish`: what goes to the store, with the default name when the
      name is empty. */
  function FinishInfo(w: Wizard): OnboardingInfo {
    OnboardingInfo(if w.businessName == "" then DefaultBusinessName else w.businessName, w.phone, w.gst, w.address)
  }

  /** `handleNext`: the next step, or finishing on the last one. */
  function HandleNext(w: Wizard): Outcome {
    if w.step < LastStep then Continue(w.(step := w.step + 1)) else Finished(FinishInfo(w))
  }

  /** One event. Continue is disabled while the wizard may not proceed; Back
      and Skip are offered only after the first step. */
  function Apply(w: Wizard, e: Event): Outcome {
    match e
    case EditName(t) => if w.step == 0 then Continue(w.(businessName := t)) else Continue(w)
    case EditPhone(t) => if w.step == 1 then Continue(w.(phone := t)) else Continue(w)
    case EditAddress(t) => if w.step == 1 then Continue(w.(address := t)) else Continue(w)
    case EditGst(t) => if w.step == 2 then Continue(w.(gst := ToUpper(t))) else Continue(w)
    case Next => if CanProceed(w) then HandleNext(w) else Continue(w)
    case Enter => if w.step == 0 && CanProceed(w) then HandleNext(w) else Continue(w)
    case Back => if w.step > 0 then Continue(w.(step := w.step - 1)) else Continue(w)
    case Skip => if w.step > 0 then Finished(FinishInfo(w)) else Continue(w)
  }

  /** A run of events from a wizard: the first finish ends the run. */
  function Run(w: Wizard, es: seq<Event>): Outcome
    decreases |es|
  {
    if es == [] then Continue(w)
    else match Apply(w, es[0])
      case Continue(w') => Run(w', es[1..])
      case Finished(info) => Finished(info)
  }

  /** Upper case: no character has an upper-case form of its own, so
      `toUpperCase` leaves the text as it is. */
  predicate IsUpper(s: string) {
    forall i :: 0 <= i < |s| ==> !HasUpper(s[i])
  }

  /** What holds of every wizard the user can reach: the step is one of the
      three, a step past the first has a name that is not blank, and the GST
      number is upper case. */
  predicate Reachable(w: Wizard) {
    && w.step <= LastStep
    && (w.step > 0 ==> Trim(w.businessName) != "")
    && IsUpper(w.gst)
  }

  lemma UpperIsUpper(t: string)
    ensures IsUpper(ToUpper(t)) && ToUpper(ToUpper(t)) == ToUpper(t)
  {
  }

  /** Every event keeps the wizard reachable. Finishing happens only from a
      step past the first, so the name handed over is the typed one (never
      the default) and is not blank, and the GST number is upper case. */
  lemma ApplyKeepsReachable(w: Wizard, e: Event)
    requires Reachable(w)
    ensures Apply(w, e).Continue? ==> Reachable(Apply(w, e).w)
    ensures Apply(w, e).Finished? ==>
              var info := Apply(w, e).info;
              && w.step > 0
              && info == OnboardingInfo(w.businessName, w.phone, w.gst, w.address)
              && Trim(info.businessName) != "" && IsUpper(info.gst)
  {
    match e
    case EditGst(t) =>
      UpperIsUpper(t);
    case Next =>
      if CanProceed(w) && w.step == LastStep {
        assert w.businessName != "";
      }
    case Skip =>
      if w.step > 0 {
        assert w.businessName != "";
      }
    case _ =>
  }

  /** From the start, any run of events keeps the wizard reachable, and a
      finished run hands over a name that is not blank. */
  lemma {:induction false} RunKeepsReachable(w: Wizard, es: seq<Event>)
    requires Reachable(w)
    ensures Run(w, es).Continue? ==> Reachable(Run(w, es).w)
    ensures Run(w, es).Finished? ==> Trim(Run(w, es).info.businessName) != "" && IsUpper(Run(w, es).info.gst)
    decreases |es|
  {
    if es != [] {
      ApplyKeepsReachable(w, es[0]);
      if Apply(w, es[0]).Continue? {
        RunKeepsReachable(Apply(w, es[0]).w, es[1..]);
      }
    }
  }

  lemma StartReachable()
    ensures Reachable(Start) && !CanProceed(Start)
  {
  }

  /** Continue moves one step forward while the last step is not reached and
      finishes on it. */
  lemma NextMoves(w: Wizard)
    requires Reachable(w) && CanProceed(w)
    ensures w.step < LastStep ==> Apply(w, Next).Continue? && Apply(w, Next).w.step == w.step + 1
    ensures w.step == LastStep ==> Apply(w, Next).Finished?
  {
  }

  /** Back moves one step back from any later step; on the first step Back
      and Skip are not offered. */
  lemma BackMoves(w: Wizard)
    requires Reachable(w)
    ensures w.step > 0 ==> Apply(w, Back).Continue? && Apply(w, Back).w.step == w.step - 1
    ensures w.step == 0 ==> Apply(w, Back) == Continue(w) && Apply(w, Skip) == Continue(w)
  {
  }

  /** The redirect of the page once the store is ready: no user goes to the
      sign-in page, a user whose onboarding is complete goes to the
      dashboard, anyone else stays. */
  function Redirect(ready: bool, signedIn: bool, onboardingComplete: Option<bool>): Option<string> {
    if !ready then None
    else if !signedIn then Some("/")
    else if onboardingComplete == Some(true) then Some("/dashboard")
    else None
  }

  /** The page stays open exactly for a signed-in user without a completed
      onboarding (or before the store is ready). */
  lemma RedirectSpec(ready: bool, signedIn: bool, onboardingComplete: Option<bool>)
    ensures Redirect(ready, signedIn, onboardingComplete).None? <==>
              !ready || (signedIn && onboardingComplete != Some(true))
    ensures ready && !signedIn ==> Redirect(ready, signedIn, onboardingComplete) == Some("/")
  {
  }

  /** After a finish the store marks onboarding complete with the typed
      business name, so the redirect rule sends the user on. */
  lemma FinishCompletesOnboarding(s: AppState, w: Wizard, e: Event)
    requires Reachable(w) && Apply(w, e).Finished?
    requires s.uid.Some? && s.profile.Some?
    ensures var p := CompleteOnboarding(s, Apply(w, e).info, true).state.profile;
            && p.Some? && p.value.businessName == w.businessName
            && Redirect(true, true, Some(p.value.onboardingComplete)) == Some("/dashboard")
  {
    ApplyKeepsReachable(w, e);
  }
}
