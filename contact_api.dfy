/**
 * The contact endpoint (`/api/contact`): a ladder of guards (method,
 * honeypot, required fields, configured destination) in front of one
 * e-mail handed to the mail service.
 */
module ContactApi {
  import opened Wrappers
  import opened Api

  const SentMessage := "Message sent successfully!"
  const SendFailed := Response(500, Message("Failed to send message. Please try again later."))

  /** The JSON body; an absent field is `None`. */
  datatype ContactBody = ContactBody(
    name: Option<string>,
    email: Option<string>,
    message: Option<string>,
    honeypot: Option<string>)

  /** The e-mail handed to the mail service: to the site owner, replying to the visitor. */
  datatype OutgoingMail = OutgoingMail(to: string, replyTo: string, subject: string, name: string, message: string)

  /** `name`, `email` and `message` are all truthy. */
  predicate FieldsPresent(body: ContactBody)
  {
    Truthy(body.name) && Truthy(body.email) && Truthy(body.message)
  }

  /** The response, and the e-mail the handler tried to send, if any. */
  datatype ContactResult = ContactResult(response: Response, attempted: Option<OutgoingMail>)

  /**
   * `handler`. `destination` is `CONTACT_FORM_EMAIL_TO`; `sendOk` says
   * whether the mail service accepted the e-mail.
   */
  function HandleContact(verb: Method, body: ContactBody, destination: Option<string>, sendOk: bool): (r: ContactResult)
    ensures verb != Post ==> r == ContactResult(MethodNotAllowed, None)
    ensures verb == Post && Truthy(body.honeypot) ==> r == ContactResult(Response(200, Message(SentMessage)), None)
    ensures verb == Post && !Truthy(body.honeypot) && !FieldsPresent(body) ==>
      r == ContactResult(Response(400, Message("All fields are required.")), None)
    ensures verb == Post && !Truthy(body.honeypot) && FieldsPresent(body) && !Truthy(destination) ==>
      r == ContactResult(Response(500, Message("Server configuration error.")), None)
    ensures r.attempted.Some? <==>
      && verb == Post && !Truthy(body.honeypot)
      && FieldsPresent(body)
      && Truthy(destination)
    ensures r.attempted.Some? ==>
      && r.attempted.value.to == destination.value
      && r.attempted.value.replyTo == body.email.value
      && r.attempted.value.name == body.name.value
      && r.attempted.value.message == body.message.value
      && r.attempted.value.subject == "New Contact Form Submission from " + body.name.value
      && r.response == (if sendOk then Response(200, Message(SentMessage)) else SendFailed)
    ensures r.response.status in {200, 400, 405, 500}
  {
    if verb != Post then ContactResult(MethodNotAllowed, None)
    else if Truthy(body.honeypot) then ContactResult(Response(200, Message(SentMessage)), None)
    else if !FieldsPresent(body) then
      ContactResult(Response(400, Message("All fields are required.")), None)
    else if !Truthy(destination) then
      ContactResult(Response(500, Message("Server configuration error.")), None)
    else
      var mail := OutgoingMail(destination.value, body.email.value,
                               "New Contact Form Submission from " + body.name.value,
                               body.name.value, body.message.value);
      if sendOk then ContactResult(Response(200, Message(SentMessage)), Some(mail))
      else ContactResult(SendFailed, Some(mail))
  }

  /**
   * A bot that fills the honeypot gets the very response a delivered
   * message gets, so it cannot tell it was filtered.
   */
  lemma HoneypotIndistinguishable(spam: ContactBody, genuine: ContactBody, destination: Option<string>, sendOk: bool)
    requires Truthy(spam.honeypot)
    requires !Truthy(genuine.honeypot) && FieldsPresent(genuine)
    requires Truthy(destination)
    ensures HandleContact(Post, spam, destination, sendOk).response == HandleContact(Post, genuine, destination, true).response
    ensures HandleContact(Post, spam, destination, sendOk).attempted.None?
  {
  }
}
