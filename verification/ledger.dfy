/** The two rules `main.py` keeps inline: recording a customer payment
    (`create_payment`) and an admin deleting a user (`delete_user`). Both
    report errors as plain HTTP exceptions rather than typed ones. */
module Ledger {
  import opened Wrappers
  import opened Errors
  import opened Domain

  const ClientNotFound: HttpError := HttpError(404, "Cliente no encontrado")
  const UserNotFound: HttpError := HttpError(404, "Usuario no encontrado")
  const CannotDeleteSelf: HttpError := HttpError(400, "No puedes eliminar tu propio usuario")

  /** `create_payment`: the payment is recorded under the next payment key
      and the customer's debt drops by the amount, floored at zero. The
      amount itself is not checked. */
  function CreatePayment(s: Store, clientId: int, amount: real, notes: Option<string>): (r: Result<Store, HttpError>)
    ensures clientId !in s.clients <==> r == Failure(ClientNotFound)
    ensures r.Success? ==>
              var t := r.value;
              && t.payments == s.payments + [Payment(s.nextPaymentId, clientId, amount, notes)]
              && t.nextPaymentId == s.nextPaymentId + 1
              && t.clients.Keys == s.clients.Keys
              && t.clients[clientId].name == s.clients[clientId].name
              && t.clients[clientId].currentDebt >= 0.0
              && (amount <= s.clients[clientId].currentDebt ==>
                    t.clients[clientId].currentDebt == s.clients[clientId].currentDebt - amount)
              && (amount >= s.clients[clientId].currentDebt ==> t.clients[clientId].currentDebt == 0.0)
              && (forall c :: c in s.clients && c != clientId ==> t.clients[c] == s.clients[c])
              && t == s.(payments := t.payments, clients := t.clients, nextPaymentId := t.nextPaymentId)
  {
    if clientId !in s.clients then Failure(ClientNotFound)
    else
      var client := s.clients[clientId];
      Success(s.(
        payments := s.payments + [Payment(s.nextPaymentId, clientId, amount, notes)],
        clients := s.clients[clientId := client.(currentDebt := ClampedSub(client.currentDebt, amount))],
        nextPaymentId := s.nextPaymentId + 1))
  }

  /** No payment, of any amount, can leave a customer owing a negative sum. */
  lemma {:induction false} PaymentKeepsDebtsNonNegative(s: Store, clientId: int, amount: real, notes: Option<string>)
    requires DebtsNonNegative(s.clients)
    requires CreatePayment(s, clientId, amount, notes).Success?
    ensures DebtsNonNegative(CreatePayment(s, clientId, amount, notes).value.clients)
  {
  }

  /** Recording a payment keeps every payment key below the sequence. */
  lemma {:induction false} PaymentPreservesValid(s: Store, clientId: int, amount: real, notes: Option<string>)
    requires Valid(s)
    requires CreatePayment(s, clientId, amount, notes).Success?
    ensures Valid(CreatePayment(s, clientId, amount, notes).value)
  {
    var t := CreatePayment(s, clientId, amount, notes).value;
    forall i | 0 <= i < |t.payments|
      ensures t.payments[i].id < t.nextPaymentId
    {
      if i < |s.payments| {
        assert t.payments[i] == s.payments[i];
      }
    }
  }

  /** Paying off a credit sale: a sale charging `total` followed by a payment
      of `total` leaves the customer where they started. */
  lemma {:induction false} PaymentUndoesCharge(s: Store, clientId: int, total: real, notes: Option<string>)
    requires clientId in s.clients
    requires s.clients[clientId].currentDebt >= 0.0
    requires total >= 0.0
    ensures var charged := s.(clients := s.clients[clientId := s.clients[clientId].(
                                currentDebt := s.clients[clientId].currentDebt + total)]);
            CreatePayment(charged, clientId, total, notes).Success?
            && CreatePayment(charged, clientId, total, notes).value.clients == s.clients
  {
    var charged := s.(clients := s.clients[clientId := s.clients[clientId].(
                        currentDebt := s.clients[clientId].currentDebt + total)]);
    var t := CreatePayment(charged, clientId, total, notes).value;
    assert t.clients[clientId] == s.clients[clientId];
    assert forall c :: c in t.clients ==> t.clients[c] == s.clients[c];
  }

  /** `delete_user`: an admin cannot delete their own account; deleting an
      unknown user is not-found; otherwise the user is removed. */
  function DeleteUser(s: Store, currentUserId: int, userId: int): (r: Result<Store, HttpError>)
    ensures currentUserId == userId ==> r == Failure(CannotDeleteSelf)
    ensures currentUserId != userId && userId !in s.users ==> r == Failure(UserNotFound)
    ensures r.Success? <==> currentUserId != userId && userId in s.users
    ensures r.Success? ==> r.value == s.(users := s.users - {userId})
  {
    if currentUserId == userId then Failure(CannotDeleteSelf)
    else if userId !in s.users then Failure(UserNotFound)
    else Success(s.(users := s.users - {userId}))
  }

  /** The acting user's own account survives every deletion, and the deleted
      account is gone: a second identical request is not-found. */
  lemma {:induction false} DeleteUserSparesActor(s: Store, currentUserId: int, userId: int)
    requires DeleteUser(s, currentUserId, userId).Success?
    ensures var t := DeleteUser(s, currentUserId, userId).value;
            && (currentUserId in t.users <==> currentUserId in s.users)
            && DeleteUser(t, currentUserId, userId) == Failure(UserNotFound)
  {
  }
}
