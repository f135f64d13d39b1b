/** The quote request page (pages/QuoteRequestPage.tsx): a three-step flow,
    review, contact and confirmation, over the items of the quote store. The
    store itself is not part of this model: `totalItems` is an input and the
    calls the page makes into the store are recorded. */
module QuoteRequest {
  import opened Wrappers
  import opened Types
  import opened ContactValidation
  import QuantityInput

  datatype QuoteStep = ReviewStep | ContactStep | ConfirmationStep

  /** What the page renders. */
  datatype Screen = ConfirmationScreen | EmptyScreen | ReviewScreen | ContactScreen

  /** The render's precedence: the confirmation wins over everything, then an
      empty quote shows the empty state whatever the step, and only then does the
      step choose between the review list and the contact form. */
  function ScreenFor(step: QuoteStep, totalItems: int): (s: Screen)
    ensures s == ConfirmationScreen <==> step == ConfirmationStep
    ensures s == EmptyScreen <==> step != ConfirmationStep && totalItems == 0
    ensures s == ReviewScreen <==> step == ReviewStep && totalItems != 0
    ensures s == ContactScreen <==> step == ContactStep && totalItems != 0
  {
    match step
    case ConfirmationStep => ConfirmationScreen
    case ReviewStep => if totalItems == 0 then EmptyScreen else ReviewScreen
    case ContactStep => if totalItems == 0 then EmptyScreen else ContactScreen
  }

  /** The step changes the page can make: review to contact, contact back to
      review, contact to confirmation, or none. */
  predicate StepChangeAllowed(from: QuoteStep, to: QuoteStep) {
    || from == to
    || (from == ReviewStep && to == ContactStep)
    || (from == ContactStep && (to == ReviewStep || to == ConfirmationStep))
  }

  /** A run of steps, each following the previous one by an allowed change. */
  predicate AllowedRun(steps: seq<QuoteStep>) {
    forall k :: 0 <= k < |steps| - 1 ==> StepChangeAllowed(steps[k], steps[k + 1])
  }

  /** Confirmation is never left. */
  lemma {:induction false} ConfirmationIsFinal(steps: seq<QuoteStep>, i: int, j: int)
    requires AllowedRun(steps)
    requires 0 <= i <= j < |steps| && steps[i] == ConfirmationStep
    ensures steps[j] == ConfirmationStep
    decreases j - i
  {
    if i < j {
      assert StepChangeAllowed(steps[i], steps[i + 1]);
      ConfirmationIsFinal(steps, i + 1, j);
    }
  }

  /** A run that ends in confirmation without starting there entered it from the
      contact step. */
  lemma {:induction false} ConfirmationOnlyFromContact(steps: seq<QuoteStep>)
    requires AllowedRun(steps) && |steps| >= 1
    requires steps[0] != ConfirmationStep && steps[|steps| - 1] == ConfirmationStep
    ensures exists k :: 0 <= k < |steps| - 1 && steps[k] == ContactStep && steps[k + 1] == ConfirmationStep
  {
    var n := |steps|;
    if steps[n - 2] == ConfirmationStep {
      var init := steps[..n - 1];
      assert AllowedRun(init) by {
        forall k | 0 <= k < |init| - 1 ensures StepChangeAllowed(init[k], init[k + 1]) {
          assert init[k] == steps[k] && init[k + 1] == steps[k + 1];
        }
      }
      ConfirmationOnlyFromContact(init);
      var k :| 0 <= k < |init| - 1 && init[k] == ContactStep && init[k + 1] == ConfirmationStep;
      assert steps[k] == ContactStep && steps[k + 1] == ConfirmationStep;
    } else {
      assert StepChangeAllowed(steps[n - 2], steps[n - 1]);
    }
  }

  /** `{ ...prev, [name]: value }`: the named field takes the new value. */
  function WithField(d: ContactDetails, f: Field, value: string): (r: ContactDetails)
    ensures FieldValue(r, f) == value
    ensures forall g :: g != f ==> FieldValue(r, g) == FieldValue(d, g)
  {
    match f
    case FullName => d.(fullName := value)
    case Email => d.(email := value)
    case Phone => d.(phone := value)
    case Address => d.(address := value)
  }

  class QuoteRequestPage {
    var step: QuoteStep
    var details: ContactDetails
    var errors: map<Field, FieldError>
    /** The calls made into the quote store. */
    var quoteCalls: seq<QuoteCall>

    /** The address never carries an error, and the confirmation is reached only
        with details that pass validation and are no longer edited. */
    ghost predicate Valid()
      reads this
    {
      && Address !in errors
      && (step == ConfirmationStep ==> FormValid(details) && errors == map[])
    }

    /** The initial state: the review step, an empty form and no errors. */
    constructor ()
      ensures Valid()
      ensures step == ReviewStep && details == ContactDetails("", "", "", "")
      ensures errors == map[] && quoteCalls == []
    {
      step := ReviewStep;
      details := ContactDetails("", "", "", "");
      errors := map[];
      quoteCalls := [];
    }

    /** `handleInputChange`, fired by the fields of the contact form: only the
        edited field's value changes, and only its error is cleared. */
    method InputChange(totalItems: int, f: Field, value: string)
      requires Valid() && ScreenFor(step, totalItems) == ContactScreen
      modifies this`details, this`errors
      ensures Valid()
      ensures details == WithField(old(details), f, value)
      ensures f !in errors
      ensures forall g :: g != f ==> (g in errors <==> g in old(errors))
      ensures forall g :: g != f && g in errors ==> errors[g] == old(errors)[g]
    {
      details := WithField(details, f, value);
      if f in errors {
        errors := errors - {f};
      }
    }

    /** `validateForm`: every field is checked, the error map replaces the old
        one, and the answer is whether it is empty. */
    method ValidateForm() returns (ok: bool)
      requires Valid() && step != ConfirmationStep
      modifies this`errors
      ensures Valid()
      ensures IsErrorMapFor(details, errors)
      ensures ok <==> errors == map[]
      ensures ok <==> FormValid(details)
    {
      errors := CollectErrors(details);
      AddressNeverChecked(details, errors);
      ok := errors == map[];
    }

    /** `handleSubmitRequest`: only from the contact step, and only when the form
        validates, does the page move to the confirmation; the quote is left
        alone. */
    method SubmitRequest()
      requires Valid()
      modifies this`step, this`errors
      ensures Valid() && StepChangeAllowed(old(step), step)
      ensures old(step) != ContactStep ==> step == old(step) && errors == old(errors)
      ensures old(step) == ContactStep ==> IsErrorMapFor(details, errors)
      ensures old(step) == ContactStep ==> (step == ConfirmationStep <==> FormValid(details))
      ensures old(step) == ContactStep && !FormValid(details) ==> step == ContactStep
      ensures quoteCalls == old(quoteCalls) && details == old(details)
    {
      if step == ContactStep {
        var ok := ValidateForm();
        if ok {
          step := ConfirmationStep;
        }
      }
    }

    /** "Continuar a Contacto". */
    method ContinueToContact(totalItems: int)
      requires Valid() && ScreenFor(step, totalItems) == ReviewScreen
      modifies this`step
      ensures Valid() && StepChangeAllowed(old(step), step)
      ensures step == ContactStep
    {
      step := ContactStep;
    }

    /** "Volver a Revisar Artículos". */
    method BackToReview(totalItems: int)
      requires Valid() && ScreenFor(step, totalItems) == ContactScreen
      modifies this`step
      ensures Valid() && StepChangeAllowed(old(step), step)
      ensures step == ReviewStep
    {
      step := ReviewStep;
    }

    /** Either link of the confirmation: the quote is cleared. */
    method FollowConfirmationLink()
      requires Valid() && step == ConfirmationStep
      modifies this`quoteCalls
      ensures Valid()
      ensures quoteCalls == old(quoteCalls) + [ClearQuote]
    {
      quoteCalls := quoteCalls + [ClearQuote];
    }

    /** The `-` of an item's stepper in the review list; it does nothing while
        disabled. */
    method DecreaseItem(totalItems: int, item: QuoteItem)
      requires Valid() && ScreenFor(step, totalItems) == ReviewScreen
      modifies this`quoteCalls
      ensures Valid()
      ensures quoteCalls == old(quoteCalls) +
        if QuantityInput.DecreaseDisabled(item.quantity, QuantityInput.DefaultMin) then []
        else [UpdateItemQuantity(item.product.id, item.quantity - 1)]
    {
      if !QuantityInput.DecreaseDisabled(item.quantity, QuantityInput.DefaultMin) {
        quoteCalls := quoteCalls + [UpdateItemQuantity(item.product.id, item.quantity - 1)];
      }
    }

    /** The `+` of an item's stepper in the review list; it does nothing while
        disabled. */
    method IncreaseItem(totalItems: int, item: QuoteItem)
      requires Valid() && ScreenFor(step, totalItems) == ReviewScreen
      modifies this`quoteCalls
      ensures Valid()
      ensures quoteCalls == old(quoteCalls) +
        if QuantityInput.IncreaseDisabled(item.quantity, QuantityInput.DefaultMax) then []
        else [UpdateItemQuantity(item.product.id, item.quantity + 1)]
    {
      if !QuantityInput.IncreaseDisabled(item.quantity, QuantityInput.DefaultMax) {
        quoteCalls := quoteCalls + [UpdateItemQuantity(item.product.id, item.quantity + 1)];
      }
    }

    /** Typing into an item's quantity field: the store is asked for the typed
        number clamped into 1..99. */
    method TypeItemQuantity(totalItems: int, item: QuoteItem, text: string)
      requires Valid() && ScreenFor(step, totalItems) == ReviewScreen
      modifies this`quoteCalls
      ensures Valid()
      ensures quoteCalls == old(quoteCalls) +
        [UpdateItemQuantity(item.product.id, QuantityInput.ClampedValue(text, QuantityInput.DefaultMin, QuantityInput.DefaultMax))]
      ensures QuantityInput.DefaultMin <= QuantityInput.ClampedValue(text, QuantityInput.DefaultMin, QuantityInput.DefaultMax) <= QuantityInput.DefaultMax
    {
      var sent := QuantityInput.HandleInputChange(text, QuantityInput.DefaultMin, QuantityInput.DefaultMax, true);
      quoteCalls := quoteCalls + [UpdateItemQuantity(item.product.id, sent.value)];
    }

    /** The remove button of an item. */
    method RemoveLineItem(totalItems: int, item: QuoteItem)
      requires Valid() && ScreenFor(step, totalItems) == ReviewScreen
      modifies this`quoteCalls
      ensures Valid()
      ensures quoteCalls == old(quoteCalls) + [RemoveItem(item.product.id)]
    {
      quoteCalls := quoteCalls + [RemoveItem(item.product.id)];
    }
  }
}
