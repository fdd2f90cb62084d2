/** The login flow: post the credentials to the sign-in endpoint, then either
    record the user and navigate to the dashboard, or tell the optional
    notifier that the login failed. The effects on the caller, local storage
    and the window are returned as a record. */
module AuthApi {
  import opened Web
  import ApiService

  const SignInUrl := "/api/signin"
  const DashboardUrl := "/dashboard"
  const UsernameKey := "username"
  const WrongCredentialsMessage := "Incorrect username or password!"
  const LoginFailedMessage := "Login failed. Please try again."

  /** The sign-in request body. */
  datatype Credentials = Credentials(username: string, password: string)

  datatype User = User(username: string)

  /** The sign-in response data; `user` is None when the server leaves it out. */
  datatype LoginResponse = LoginResponse(success: bool, user: Option<User>)

  /** The optional notifier object; it may lack its `error` member. */
  datatype Notifier = Notifier(hasError: bool)

  /** A `localStorage.setItem(key, value)` call. */
  datatype StorageWrite = StorageWrite(key: string, value: string)

  /** What one login did: the request it posted, the argument of its
      `setUsername` call, its storage write, the URL it assigned to
      `window.location.href`, and the message it passed to
      `notification.error`; None where it did not do that. */
  datatype LoginEffects = LoginEffects(
    request: ApiService.ApiRequest<Credentials>,
    usernameSet: Option<string>,
    stored: Option<StorageWrite>,
    navigation: Option<string>,
    notified: Option<string>)

  /** `notification?.error?.(...)` reaches a callback. */
  predicate CanNotify(notification: Option<Notifier>): (b: bool)
    ensures notification.None? ==> !b
    ensures notification.Some? && !notification.value.hasError ==> !b
  {
    notification.Some? && notification.value.hasError
  }

  /** `response?.success` is truthy: the post settled with data whose
      `success` flag is set. */
  predicate Accepted<E>(transport: Settled<ApiService.Response<Option<LoginResponse>>, E>): (b: bool)
    ensures transport.Rejected? ==> !b
    ensures transport.Fulfilled? && transport.value.data.None? ==> !b
    ensures b ==> transport.value.data.value.success
  {
    transport.Fulfilled? && transport.value.data.Some? && transport.value.data.value.success
  }

  /** The user of an accepted response, when it has one. */
  function AcceptedUser<E>(transport: Settled<ApiService.Response<Option<LoginResponse>>, E>): (u: Option<User>)
    ensures u.Some? ==> Accepted(transport)
  {
    if Accepted(transport) then transport.value.data.value.user else None
  }

  /** `login`. The `try` block posts the credentials; an accepted response
      with a user calls `setUsername`, writes the username to storage in a
      browser and navigates to the dashboard; a missing or unaccepted response
      notifies the wrong-credentials message. Everything that throws reaches
      the `catch`, which notifies the generic failure message: a rejected
      post, an accepted response without a user (reading its `username`
      throws before `setUsername`), and an accepted response outside a
      browser (assigning `window.location.href` throws after `setUsername`).
      A notifier without an `error` callback makes both failures silent. */
  method Login<E>(username: string, password: string, notification: Option<Notifier>,
                  ctx: ApiService.Context, transport: Settled<ApiService.Response<Option<LoginResponse>>, E>)
    returns (fx: LoginEffects)
    ensures fx.request == ApiService.ApiRequest(POST, SignInUrl, Some(Credentials(username, password)))
    ensures fx.usernameSet == if AcceptedUser(transport).Some? then Some(AcceptedUser(transport).value.username) else None
    ensures fx.stored == if ApiService.HasWindow(ctx) && AcceptedUser(transport).Some?
                         then Some(StorageWrite(UsernameKey, AcceptedUser(transport).value.username)) else None
    ensures fx.navigation == if ApiService.HasWindow(ctx) && AcceptedUser(transport).Some? then Some(DashboardUrl) else None
    ensures !CanNotify(notification) ==> fx.notified == None
    ensures CanNotify(notification) && transport.Fulfilled? && !Accepted(transport) ==>
      fx.notified == Some(WrongCredentialsMessage)
    ensures CanNotify(notification) && (transport.Rejected? || (Accepted(transport) && (AcceptedUser(transport).None? || !ApiService.HasWindow(ctx)))) ==>
      fx.notified == Some(LoginFailedMessage)
    ensures fx.navigation.Some? ==> fx.notified == None
  {
    var call := ApiService.Post(SignInUrl, Credentials(username, password), transport);
    fx := LoginEffects(call.request, None, None, None, None);
    var threw := false;
    match call.result {
      case Rejected(_) =>
        threw := true;
      case Fulfilled(response) =>
        if response.Some? && response.value.success {
          match response.value.user {
            case None =>
              threw := true;
            case Some(user) =>
              fx := fx.(usernameSet := Some(user.username));
              if ApiService.HasWindow(ctx) {
                fx := fx.(stored := Some(StorageWrite(UsernameKey, user.username)));
                fx := fx.(navigation := Some(DashboardUrl));
              } else {
                threw := true;
              }
          }
        } else if CanNotify(notification) {
          fx := fx.(notified := Some(WrongCredentialsMessage));
        }
    }
    if threw && CanNotify(notification) {
      fx := fx.(notified := Some(LoginFailedMessage));
    }
  }
}
