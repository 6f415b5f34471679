/** The registration wizard: a five-step dialog that collects one entrant's
    details (identity, category, review, payment, confirmation), hands the
    draft to its `onRegister` callback at the payment step, and offers a
    pre-filled payment-proof message at the confirmation step. */
module Registration {
  import Text

  const TotalSteps := 5

  /** The category the draft is created with before the dialog first opens. */
  const InitialCategory := "Masters (1500+ Rating)"
  /** The category every opening of the dialog resets the draft to. */
  const DefaultCategory := "Masters (1400+ Rating)"
  /** The choices the category selector offers at step 2. */
  const CategoryOptions: seq<string> := ["Masters (1400+ Rating)", "Intermediate (1100 - 1399)", "Open (0 - 1099)"]

  /** The form data: an entrant without id, status or registration time. */
  datatype Draft = Draft(name: string, email: string, phone: string, category: string, ratingId: string)

  const EmptyDraft := Draft("", "", "", DefaultCategory, "")

  /** `nextStep`: `Math.min(s + 1, totalSteps)`. */
  function NextStep(s: int): (r: int)
    ensures r <= TotalSteps
    ensures s < TotalSteps ==> r == s + 1
    ensures s >= TotalSteps ==> r == TotalSteps
  {
    if s + 1 < TotalSteps then s + 1 else TotalSteps
  }

  /** `prevStep`: `Math.max(s - 1, 1)`. */
  function PrevStep(s: int): (r: int)
    ensures r >= 1
    ensures s > 1 ==> r == s - 1
    ensures s <= 1 ==> r == 1
  {
    if s - 1 > 1 then s - 1 else 1
  }

  /** Both moves keep a step in range; the last step is a fixed point of
      `nextStep` and the first one of `prevStep`. */
  lemma StepsStayInRange(s: int)
    requires 1 <= s <= TotalSteps
    ensures 1 <= NextStep(s) <= TotalSteps && 1 <= PrevStep(s) <= TotalSteps
    ensures NextStep(TotalSteps) == TotalSteps && PrevStep(1) == 1
  {
  }

  /** The primary button is disabled at step 1 while the name is empty. */
  predicate PrimaryDisabled(step: int, name: string): (b: bool)
    ensures b ==> step == 1
    ensures b ==> name == ""
  {
    step == 1 && name == ""
  }

  /** The Back button is rendered strictly between the first and last steps. */
  predicate BackOffered(step: int): (b: bool)
    ensures b ==> PrevStep(step) == step - 1 && 1 <= PrevStep(step) < TotalSteps - 1
  {
    1 < step < TotalSteps
  }

  /** The primary button is blocked for no other reason than an empty name
      at the first step. */
  lemma OnlyEmptyNameBlocks(step: int, name: string)
    requires 1 <= step <= TotalSteps
    ensures PrimaryDisabled(step, name) <==> step == 1 && name == ""
  {
  }

  /** What one press of the primary button reports to the dialog's owner:
      nothing, a call of `onRegister` with the draft, or a call of `onClose`. */
  datatype Effect = NoEffect | Registered(draft: Draft) | Closed

  /** The dialog's state: the `isOpen` property it is rendered with, and its
      own `step`, `formData` and `copied` state, which survive while it is
      closed. */
  class RegistrationModal {
    var isOpen: bool
    var step: int
    var formData: Draft
    var copied: bool

    /** The step is in range, and every step past the first was reached
        with a name: the name can only be edited at step 1, and leaving
        step 1 needs one. */
    ghost predicate Valid()
      reads this
    {
      1 <= step <= TotalSteps && (step > 1 ==> formData.name != "")
    }

    /** The first render: closed, at step 1, with the initial draft. */
    constructor ()
      ensures Valid()
      ensures !isOpen && step == 1 && !copied
      ensures formData == Draft("", "", "", InitialCategory, "")
    {
      isOpen := false;
      step := 1;
      formData := Draft("", "", "", InitialCategory, "");
      copied := false;
    }

    /** The owner sets `isOpen`. The effect that depends on `isOpen` runs
        only when the value changes, and resets the dialog only when it
        becomes open. */
    method SetOpen(open: bool)
      requires Valid()
      modifies this
      ensures Valid()
      ensures isOpen == open
      ensures if open && !old(isOpen)
              then step == 1 && formData == EmptyDraft && !copied
              else step == old(step) && formData == old(formData) && copied == old(copied)
    {
      if open && !isOpen {
        step := 1;
        formData := EmptyDraft;
        copied := false;
      }
      isOpen := open;
    }

    /** Typing in the name field at step 1. */
    method EditName(name: string)
      requires Valid() && isOpen && step == 1
      modifies this`formData
      ensures Valid()
      ensures formData == old(formData).(name := name)
    {
      formData := formData.(name := name);
    }

    /** Typing in the email field at step 1. */
    method EditEmail(email: string)
      requires Valid() && isOpen && step == 1
      modifies this`formData
      ensures Valid()
      ensures formData == old(formData).(email := email)
    {
      formData := formData.(email := email);
    }

    /** Typing in the phone field at step 1. */
    method EditPhone(phone: string)
      requires Valid() && isOpen && step == 1
      modifies this`formData
      ensures Valid()
      ensures formData == old(formData).(phone := phone)
    {
      formData := formData.(phone := phone);
    }

    /** Choosing one of the offered categories at step 2. */
    method SelectCategory(category: string)
      requires Valid() && isOpen && step == 2
      requires category in CategoryOptions
      modifies this`formData
      ensures Valid()
      ensures formData == old(formData).(category := category)
    {
      formData := formData.(category := category);
    }

    /** Typing in the rating-id field at step 2. */
    method EditRatingId(ratingId: string)
      requires Valid() && isOpen && step == 2
      modifies this`formData
      ensures Valid()
      ensures formData == old(formData).(ratingId := ratingId)
    {
      formData := formData.(ratingId := ratingId);
    }

    /** The copy button on the payment step marks the account number as copied. */
    method CopyAccountNumber()
      requires Valid() && isOpen && step == 4
      modifies this`copied
      ensures Valid()
      ensures copied
    {
      copied := true;
    }

    /** The Back button, rendered only strictly between the first and last
        steps, calls `prevStep`. */
    method Back()
      requires Valid() && isOpen && BackOffered(step)
      modifies this`step
      ensures Valid()
      ensures step == old(step) - 1
    {
      step := PrevStep(step);
    }

    /** The primary button: disabled at step 1 with an empty name; otherwise
        step 4 runs `handleRegister` (calls `onRegister` with the draft, not
        waiting for its outcome, then moves to step 5), step 5 calls
        `onClose`, and any other step calls `nextStep`. */
    method Primary() returns (effect: Effect)
      requires Valid() && isOpen
      modifies this
      ensures Valid()
      ensures formData == old(formData) && copied == old(copied)
      ensures effect.Registered? ==> effect.draft.name != ""
      ensures old(PrimaryDisabled(step, formData.name)) ==>
                effect == NoEffect && step == old(step) && isOpen
      ensures !old(PrimaryDisabled(step, formData.name)) && old(step) == 4 ==>
                effect == Registered(old(formData)) && step == 5 && isOpen
      ensures !old(PrimaryDisabled(step, formData.name)) && old(step) == 5 ==>
                effect == Closed && step == 5 && !isOpen
      ensures !old(PrimaryDisabled(step, formData.name)) && old(step) < 4 ==>
                effect == NoEffect && step == old(step) + 1 && isOpen
    {
      if PrimaryDisabled(step, formData.name) {
        effect := NoEffect;
      } else if step == 4 {
        effect := Registered(formData);
        step := 5;
      } else if step == 5 {
        effect := Closed;
        isOpen := false;
      } else {
        effect := NoEffect;
        step := NextStep(step);
      }
    }
  }

  /** Pressing the primary button twice from the payment step calls
      `onRegister` once, then closes: a second press never registers again. */
  method PressTwiceAtPayment(modal: RegistrationModal) returns (first: Effect, second: Effect)
    requires modal.Valid() && modal.isOpen && modal.step == 4
    modifies modal
    ensures first == Registered(old(modal.formData))
    ensures second == Closed && !modal.isOpen && modal.Valid()
  {
    first := modal.Primary();
    second := modal.Primary();
  }

  /** A full pass: open, type a non-empty name, go forward four times. The
      only registration carries the typed name and the default category. */
  method RegisterFromScratch(modal: RegistrationModal, name: string) returns (effects: seq<Effect>)
    requires modal.Valid() && !modal.isOpen && name != ""
    modifies modal
    ensures effects == [NoEffect, NoEffect, NoEffect, Registered(EmptyDraft.(name := name))]
    ensures modal.Valid() && modal.step == 5 && modal.isOpen
  {
    modal.SetOpen(true);
    modal.EditName(name);
    var e1 := modal.Primary();
    var e2 := modal.Primary();
    var e3 := modal.Primary();
    var e4 := modal.Primary();
    effects := [e1, e2, e3, e4];
  }

  // ---- The payment-proof message offered at step 5 ----

  const ProofHeader := "*PAYMENT EVIDENCE*\n\nPlayer: "
  const ProofCategoryLabel := "\nCategory: "
  const ProofFee := "\U{20A6}10,000"
  const ProofFooter := "\nAmount: " + ProofFee + "\n\n[Attach Receipt Here]"

  /** The text the WhatsApp link pre-fills, before percent-encoding: the
      name right after the header, the category right after its label. */
  function ProofMessage(d: Draft): (r: string)
    ensures |r| == |ProofHeader| + |d.name| + |ProofCategoryLabel| + |d.category| + |ProofFooter|
    ensures r[..|ProofHeader|] == ProofHeader
    ensures r[|ProofHeader|..|ProofHeader| + |d.name|] == d.name
    ensures r[|ProofHeader| + |d.name|..|ProofHeader| + |d.name| + |ProofCategoryLabel|] == ProofCategoryLabel
    ensures var c := |ProofHeader| + |d.name| + |ProofCategoryLabel|; r[c..c + |d.category|] == d.category
    ensures r[|r| - |ProofFooter|..] == ProofFooter
  {
    ProofHeader + d.name + ProofCategoryLabel + d.category + ProofFooter
  }

  /** The message mentions the entrant's name and category, and the fee. */
  lemma ProofMessageMentions(d: Draft)
    ensures Text.Includes(ProofMessage(d), d.name)
    ensures Text.Includes(ProofMessage(d), d.category)
    ensures Text.Includes(ProofMessage(d), ProofFee)
  {
    var m := ProofMessage(d);
    var n := |ProofHeader|;
    assert m[n..n + |d.name|] == d.name;
    Text.IncludesAt(m, d.name, n);
    var c := n + |d.name| + |ProofCategoryLabel|;
    assert m[c..c + |d.category|] == d.category;
    Text.IncludesAt(m, d.category, c);
    var f := c + |d.category| + |"\nAmount: "|;
    assert m[f..f + |ProofFee|] == ProofFee;
    Text.IncludesAt(m, ProofFee, f);
  }

  /** The message determines the name and the category it was built from,
      as long as the name contains no line break. */
  lemma ProofMessageDetermines(a: Draft, b: Draft)
    requires '\n' !in a.name && '\n' !in b.name
    requires ProofMessage(a) == ProofMessage(b)
    ensures a.name == b.name && a.category == b.category
  {
    Text.TemplateDetermines(ProofHeader, ProofCategoryLabel, ProofFooter,
                            a.name, a.category, b.name, b.category, '\n');
  }
}
