/**
 * `ConfirmDialog` (src/components/ConfirmDialog.tsx): the question asked before
 * an appointment is cancelled, and the calls its Confirm button makes, in order.
 */
module ConfirmDialog {
  import opened Wrappers

  const PaidMessage: string :=
    "This appointment has been paid for. Are you sure you want to cancel it? Refunds would take 5\U{2013}10 days to appear in your account."
  const UnpaidMessage: string := "Are you sure you want to proceed with this action?"

  /** The description text: it depends on `isPaid` alone. */
  function Message(isPaid: bool): (text: string)
    ensures text == PaidMessage <==> isPaid
    ensures text == UnpaidMessage <==> !isPaid
  {
    if isPaid then PaidMessage else UnpaidMessage
  }

  /** The three callbacks the dialog can invoke. */
  datatype Effect =
    | CancelAppointment(appointmentId: int)
    | RefundPayment(refundAppointmentId: int, paymentIntentId: string)
    | OnOpenChange(open: bool)

  /** `isPaid && paymentIntentId`: `null`, `undefined` and `''` are all falsy. */
  predicate ShouldRefund(isPaid: bool, paymentIntentId: Option<string>) {
    isPaid && paymentIntentId.Some? && paymentIntentId.value != ""
  }

  /** `handleOnClick`: each call is appended to the effect log as it is made. */
  method HandleOnClick(isPaid: bool, paymentIntentId: Option<string>, appointmentId: int) returns (effects: seq<Effect>)
    ensures 2 <= |effects| <= 3
    ensures effects[0] == CancelAppointment(appointmentId)
    ensures effects[|effects| - 1] == OnOpenChange(false)
    ensures (exists k :: 0 <= k < |effects| && effects[k].RefundPayment?) <==> ShouldRefund(isPaid, paymentIntentId)
    ensures ShouldRefund(isPaid, paymentIntentId) ==> effects[1] == RefundPayment(appointmentId, paymentIntentId.value)
    ensures !ShouldRefund(isPaid, paymentIntentId) ==> effects == [CancelAppointment(appointmentId), OnOpenChange(false)]
  {
    effects := [];
    effects := effects + [CancelAppointment(appointmentId)];
    if isPaid && paymentIntentId.Some? && paymentIntentId.value != "" {
      effects := effects + [RefundPayment(appointmentId, paymentIntentId.value)];
    }
    effects := effects + [OnOpenChange(false)];
    assert ShouldRefund(isPaid, paymentIntentId) ==> effects[1].RefundPayment?;
  }
}
