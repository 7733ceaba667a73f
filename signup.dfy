/** The `Signup` component's state and its submit handler. The request and
    the delayed redirect are recorded rather than performed. */
module SignupView {
  import opened JsValues

  const SuccessText := "Signup successful! You can now log in."
  const DefaultErrorText := "Signup failed"
  /** The redirect after a successful signup waits this many milliseconds. */
  const RedirectDelayMs: nat := 2000

  /** The body of the signup request. */
  datatype Credentials = Credentials(username: string, password: string)

  /** A navigation scheduled with `setTimeout`. */
  datatype DelayedNavigation = DelayedNavigation(target: string, delayMs: nat)

  /** How the handler's two awaits settle: a response with its `ok` flag and
      the `msg` field of its JSON body, or a rejection of `fetch` or of
      `response.json()`, which ends the handler before any branch. */
  datatype SignupReply = Response(ok: bool, msg: Option<string>) | Rejected

  datatype SignupState = SignupState(
    username: string,
    password: string,
    message: string,
    error: string,
    sent: seq<Credentials>,
    scheduled: seq<DelayedNavigation>)

  class Signup {
    var username: string
    var password: string
    var message: string
    var error: string
    var sent: seq<Credentials>
    var scheduled: seq<DelayedNavigation>

    function State(): SignupState
      reads this
    {
      SignupState(username, password, message, error, sent, scheduled)
    }

    constructor ()
      ensures State() == SignupState("", "", "", "", [], [])
    {
      username, password, message, error := "", "", "", "";
      sent, scheduled := [], [];
    }

    /** The username input's `onChange`. */
    method SetUsername(v: string)
      modifies this
      ensures State() == old(State()).(username := v)
    {
      username := v;
    }

    /** The password input's `onChange`. */
    method SetPassword(v: string)
      modifies this
      ensures State() == old(State()).(password := v)
    {
      password := v;
    }

    /** `handleSignup`: clears both messages, sends the credentials, then on
        an ok response shows the success message, clears the inputs and
        schedules the redirect to "/"; on any other response shows the
        server's `msg`, or a default when it is missing or empty. After a
        response exactly one of the two messages is shown. */
    method HandleSignup(reply: SignupReply)
      modifies this
      ensures sent == old(sent) + [Credentials(old(username), old(password))]
      ensures reply.Rejected? ==>
        State() == old(State()).(message := "", error := "", sent := sent)
      ensures reply.Response? && reply.ok ==>
        State() == old(State()).(message := SuccessText, error := "", username := "", password := "",
                                 sent := sent,
                                 scheduled := old(scheduled) + [DelayedNavigation("/", RedirectDelayMs)])
      ensures reply.Response? && !reply.ok ==>
        State() == old(State()).(message := "", error := OrElse(reply.msg, DefaultErrorText), sent := sent)
      ensures reply.Response? ==> (message != "" <==> error == "")
      ensures scheduled != old(scheduled) ==> reply.Response? && reply.ok
    {
      message := "";
      error := "";
      sent := sent + [Credentials(username, password)];
      if reply.Rejected? {
        return;
      }
      if reply.ok {
        message := SuccessText;
        username := "";
        password := "";
        scheduled := scheduled + [DelayedNavigation("/", RedirectDelayMs)];
      } else {
        error := OrElse(reply.msg, DefaultErrorText);
      }
    }
  }
}
