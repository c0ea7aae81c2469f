/**
 * The payment modal (src/components/CheckoutModal.tsx): a contact form, and two buttons that
 * simulate a payment outcome and record it on the active ticket. Each handler is split at
 * its `await`: the part before the delay raises `isProcessing`, the part after it records
 * the payment and reports it.
 */
module CheckoutModal {
  import opened Wrappers
  import opened Tickets
  import opened LocalStore
  import opened Db

  /** What a handler does to its surroundings once the payment is recorded. */
  datatype ModalEffect = SuccessToast(message: string) | ErrorToast(message: string) | CallOnSuccess | CallOnClose

  /** A button: its caption and whether it is disabled. */
  datatype Button = Button(caption: string, disabled: bool)

  /** What an open modal shows. */
  datatype ModalView = ModalView(
    total: string,
    fields: map<string, string>,
    inputsDisabled: bool,
    closeDisabled: bool,
    success: Button,
    failure: Button)

  /** The total the modal displays, whatever the page charges. */
  const Total: string := "\U{20B9}499"

  /** The contact form when the modal first renders. */
  const InitialForm: map<string, string> := map["name" := "", "email" := "", "phone" := ""]

  /** The reference a simulated success records. */
  function PaymentRef(shortId: string): (s: string)
    ensures |s| == 9 + |shortId| && s[..9] == "pay_demo_" && s[9..] == shortId
  {
    "pay_demo_" + shortId
  }

  /** The modal's state. */
  class Modal {
    var isProcessing: bool
    var formData: map<string, string>

    constructor()
      ensures !isProcessing && formData == InitialForm
    {
      isProcessing := false;
      formData := InitialForm;
    }

    /** What the modal renders: nothing when closed; otherwise the fixed total, the form,
        and controls that are all disabled while a payment is processing. */
    function Render(isOpen: bool): (v: Option<ModalView>)
      reads this
      ensures v.None? <==> !isOpen
      ensures v.Some? ==> v.value.total == Total && v.value.fields == formData
      ensures v.Some? ==>
        (v.value.inputsDisabled <==> isProcessing) && (v.value.closeDisabled <==> isProcessing)
        && (v.value.success.disabled <==> isProcessing) && (v.value.failure.disabled <==> isProcessing)
      ensures v.Some? ==>
        v.value.success.caption == (if isProcessing then "Processing..." else "Simulate Success")
        && v.value.failure.caption == (if isProcessing then "Processing..." else "Simulate Failure")
    {
      if !isOpen then None
      else
        var processing := "Processing...";
        Some(ModalView(
          Total, formData, isProcessing, isProcessing,
          Button(if isProcessing then processing else "Simulate Success", isProcessing),
          Button(if isProcessing then processing else "Simulate Failure", isProcessing)))
    }

    /** `handleInputChange`: the named field takes the typed value; no other field changes. */
    method HandleInputChange(name: string, value: string)
      modifies this
      ensures formData == old(formData)[name := value]
      ensures forall k :: k in old(formData) && k != name ==> formData[k] == old(formData)[k]
      ensures isProcessing == old(isProcessing)
    {
      formData := formData[name := value];
    }

    /** Either handler up to its delay: processing starts. */
    method StartProcessing()
      modifies this
      ensures isProcessing && formData == old(formData)
    {
      isProcessing := true;
    }

    /** `handleSuccess` after its delay: the active ticket is marked paid with a `pay_demo_`
        reference, processing ends, the success toast shows and onSuccess runs. This happens
        even when there was no active ticket to mark. When the store throws, the handler
        stops there and processing never ends. */
    method FinishSuccess(ls: LocalStorage, shortId: string, freshUid: string, timeOf: string -> int)
      returns (effects: Outcome<seq<ModalEffect>>)
      modifies this, ls
      ensures formData == old(formData) && ls.writable == old(ls.writable)
      ensures effects.Threw? ==> isProcessing == old(isProcessing)
      ensures effects.Done? ==> !isProcessing && effects.value == [SuccessToast("Payment successful!"), CallOnSuccess]
      ensures effects.Threw? ==> ls.items == old(ls.items)
      ensures var active := ActiveTicket(GetTickets(old(ls.items)), CurrentUser(old(ls.items), freshUid), timeOf);
        effects.Done? && active.None? ==> ls.items == AfterUserId(old(ls.items), old(ls.writable), freshUid)
      ensures var active := ActiveTicket(GetTickets(old(ls.items)), CurrentUser(old(ls.items), freshUid), timeOf);
        effects.Done? && active.Some? ==>
          var marked := MarkAll(GetTickets(old(ls.items)), active.value.id, Success, Some(PaymentRef(shortId)));
          GetTickets(ls.items) == marked
          && ls.items == AfterUserId(old(ls.items), true, freshUid)[TicketsKey := Json(TicketsDoc(marked))]
      ensures effects.Threw? <==>
        (!old(ls.writable)
         && (UserIdThrows(old(ls.items), false)
             || ActiveTicket(GetTickets(old(ls.items)), CurrentUser(old(ls.items), freshUid), timeOf).Some?))
    {
      var paymentRef := Some(PaymentRef(shortId));
      var marked := MarkPayment(ls, Success, paymentRef, freshUid, timeOf);
      if marked.Threw? {
        return Threw;
      }
      isProcessing := false;
      return Done([SuccessToast("Payment successful!"), CallOnSuccess]);
    }

    /** `handleFailure` after its delay: the active ticket is marked failed and its payment
        reference cleared, processing ends, the error toast shows and onClose runs. */
    method FinishFailure(ls: LocalStorage, freshUid: string, timeOf: string -> int)
      returns (effects: Outcome<seq<ModalEffect>>)
      modifies this, ls
      ensures formData == old(formData) && ls.writable == old(ls.writable)
      ensures effects.Threw? ==> isProcessing == old(isProcessing)
      ensures effects.Done? ==> !isProcessing && effects.value == [ErrorToast("Payment failed \U{2014} try again."), CallOnClose]
      ensures effects.Threw? ==> ls.items == old(ls.items)
      ensures var active := ActiveTicket(GetTickets(old(ls.items)), CurrentUser(old(ls.items), freshUid), timeOf);
        effects.Done? && active.None? ==> ls.items == AfterUserId(old(ls.items), old(ls.writable), freshUid)
      ensures var active := ActiveTicket(GetTickets(old(ls.items)), CurrentUser(old(ls.items), freshUid), timeOf);
        effects.Done? && active.Some? ==>
          var marked := MarkAll(GetTickets(old(ls.items)), active.value.id, Failed, None);
          GetTickets(ls.items) == marked
          && ls.items == AfterUserId(old(ls.items), true, freshUid)[TicketsKey := Json(TicketsDoc(marked))]
      ensures effects.Threw? <==>
        (!old(ls.writable)
         && (UserIdThrows(old(ls.items), false)
             || ActiveTicket(GetTickets(old(ls.items)), CurrentUser(old(ls.items), freshUid), timeOf).Some?))
    {
      var marked := MarkPayment(ls, Failed, None, freshUid, timeOf);
      if marked.Threw? {
        return Threw;
      }
      isProcessing := false;
      return Done([ErrorToast("Payment failed \U{2014} try again."), CallOnClose]);
    }
  }
}
