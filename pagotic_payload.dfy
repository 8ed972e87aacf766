/** The payment request sent to the PagoTIC gateway for an order
    (`src/modules/pagotic/pagotic.payload.ts`). */
module PagoticPayload {
  import opened Wrappers

  datatype Order = Order(id: string, total: int)

  datatype User = User(name: Option<string>, email: Option<string>, dni: Option<string>)

  datatype PaymentMethod = PaymentMethod(kind: string)

  datatype Detail = Detail(
    conceptId: string, conceptDescription: string, amount: int, externalReference: string)

  datatype Identification = Identification(idType: string, number: string, country: string)

  datatype Payer = Payer(name: string, email: string, identification: Identification)

  datatype CreatePagoPayload = CreatePagoPayload(
    payloadType: string,
    returnUrl: string, backUrl: string, notificationUrl: string,
    number: string, externalTransactionId: string,
    dueDate: string, lastDueDate: string,
    currencyId: string,
    paymentMethods: seq<PaymentMethod>,
    details: seq<Detail>,
    payer: Payer)

  /** The three errors `buildPagoPayload` throws. */
  datatype PayloadError = MissingAppUrl | MissingEmail | MissingDni

  const SuccessPath := "/payment/success"
  const CancelPath := "/payment/cancel"
  const WebhookPath := "/api/webhooks/pagotic"
  const DefaultPayerName := "Comprador"

  /** A JavaScript string that is set and non-empty (truthy). */
  predicate Present(s: Option<string>) {
    s.Some? && s.value != ""
  }

  /** `buildPagoPayload(order, user)`. `appUrl` is NEXT_PUBLIC_APP_URL;
      `transactionId` stands for `generateExternalTransactionId`, and
      `dueIn(m)` for the formatted instant `m` minutes from now. */
  function BuildPagoPayload(
    appUrl: Option<string>, order: Order, user: User,
    transactionId: string -> string, dueIn: nat -> string): (r: Result<CreatePagoPayload, PayloadError>)
    ensures !Present(appUrl) ==> r == Failure(MissingAppUrl)
    ensures Present(appUrl) && !Present(user.email) ==> r == Failure(MissingEmail)
    ensures Present(appUrl) && Present(user.email) && !Present(user.dni) ==> r == Failure(MissingDni)
    ensures r.Success? <==> Present(appUrl) && Present(user.email) && Present(user.dni)
    ensures r.Success? ==>
      var p := r.value;
      && p.payloadType == "online"
      && p.returnUrl == appUrl.value + SuccessPath
      && p.backUrl == appUrl.value + CancelPath
      && p.notificationUrl == appUrl.value + WebhookPath
      && p.number == order.id
      && p.externalTransactionId == transactionId(order.id)
      && p.dueDate == dueIn(30) && p.lastDueDate == dueIn(60)
      && p.currencyId == "ARS"
      && p.paymentMethods == [PaymentMethod("credit")]
      && |p.details| == 1
      && p.details[0].externalReference == order.id
      && p.details[0].conceptId == "woocommerce"
      && p.details[0].conceptDescription == "Compra de ingressos - Pedido " + order.id
      && p.details[0].amount == order.total
      && p.payer.name == user.name.GetOr(DefaultPayerName)
      && p.payer.email == user.email.value
      && p.payer.identification == Identification("DNI", user.dni.value, "AR")
  {
    if !Present(appUrl) then Failure(MissingAppUrl)
    else if !Present(user.email) then Failure(MissingEmail)
    else if !Present(user.dni) then Failure(MissingDni)
    else
      var base := appUrl.value;
      Success(CreatePagoPayload(
        "online",
        base + SuccessPath, base + CancelPath, base + WebhookPath,
        order.id, transactionId(order.id),
        dueIn(30), dueIn(60),
        "ARS",
        [PaymentMethod("credit")],
        [Detail("woocommerce", "Compra de ingressos - Pedido " + order.id, order.total, order.id)],
        Payer(user.name.GetOr(DefaultPayerName), user.email.value,
              Identification("DNI", user.dni.value, "AR"))))
  }

  /** The gateway can tell its three callbacks apart: the URLs share the app
      URL as prefix and are pairwise different. */
  lemma CallbackUrlsDistinct(appUrl: Option<string>, order: Order, user: User,
                             transactionId: string -> string, dueIn: nat -> string)
    requires BuildPagoPayload(appUrl, order, user, transactionId, dueIn).Success?
    ensures var p := BuildPagoPayload(appUrl, order, user, transactionId, dueIn).value;
      && p.returnUrl[..|appUrl.value|] == appUrl.value
      && p.backUrl[..|appUrl.value|] == appUrl.value
      && p.notificationUrl[..|appUrl.value|] == appUrl.value
      && p.returnUrl != p.backUrl && p.returnUrl != p.notificationUrl && p.backUrl != p.notificationUrl
  {
    var base := appUrl.value;
    var n := |base|;
    var p := BuildPagoPayload(appUrl, order, user, transactionId, dueIn).value;
    assert p.returnUrl[n + 9] == 's' && p.backUrl[n + 9] == 'c';
    assert p.returnUrl[n + 1] == 'p' && p.notificationUrl[n + 1] == 'a';
    assert p.backUrl[n + 1] == 'p';
  }

  /** The payer is named "Comprador" only when the user has no name at all;
      an empty name is sent as it is. */
  lemma PayerNameDefault(appUrl: Option<string>, order: Order, user: User,
                         transactionId: string -> string, dueIn: nat -> string)
    requires BuildPagoPayload(appUrl, order, user, transactionId, dueIn).Success?
    ensures user.name.None? ==> BuildPagoPayload(appUrl, order, user, transactionId, dueIn).value.payer.name == "Comprador"
    ensures user.name == Some("") ==> BuildPagoPayload(appUrl, order, user, transactionId, dueIn).value.payer.name == ""
  {
  }
}
