/** The login and signup page: login validation and the token it stores,
    the signup form seeded from its field definitions and validated, the
    social-login redirect target, and switching between the two modes. */
module AuthPage {
  import opened Js
  import opened FormSchema

  // ---------------------------------------------------------------------------
  // Login

  /** The login form always holds both of its keys. */
  predicate IsLoginForm(form: map<string, string>) {
    "name" in form && "password" in form
  }

  predicate AllSpace(s: string) {
    forall i :: 0 <= i < |s| ==> IsSpace(s[i])
  }

  /** `validateLogin`'s errors: a field is flagged iff it is all
      whitespace. */
  function LoginErrors(form: map<string, string>): (errs: Errors)
    requires IsLoginForm(form)
    ensures errs.Keys <= {"name", "password"}
    ensures "name" in errs <==> AllSpace(form["name"])
    ensures "password" in errs <==> AllSpace(form["password"])
    ensures "name" in errs ==> errs["name"] == "Username is required"
    ensures "password" in errs ==> errs["password"] == "Password is required"
  {
    TrimBlankIff(form["name"]);
    TrimBlankIff(form["password"]);
    var withName: Errors := if Trim(form["name"]) == "" then map["name" := "Username is required"] else map[];
    if Trim(form["password"]) == "" then withName["password" := "Password is required"] else withName
  }

  // ---------------------------------------------------------------------------
  // Signup

  /** The signup form's seed for one field: its `defaultValue` when defined,
      else "". */
  function SignupSeed(f: FieldSpec): (r: Value)
    ensures f.defaultValue != Undefined ==> r == f.defaultValue
    ensures f.defaultValue == Undefined ==> r == Str("")
  {
    if f.defaultValue != Undefined then f.defaultValue else Str("")
  }

  function SignupErrors(fields: seq<FieldSpec>, form: Form): Errors {
    RequiredErrors(fields, form, Falsy)
  }

  /** The initial signup form has a key per field, holding the field's
      default or "". */
  lemma InitialSignupForm(fields: seq<FieldSpec>, i: int)
    requires 0 <= i < |fields| && LastWithName(fields, i)
    ensures SeedForm(fields, SignupSeed).Keys == Names(fields)
    ensures SeedForm(fields, SignupSeed)[fields[i].name] ==
      (if fields[i].defaultValue != Undefined then fields[i].defaultValue else Str(""))
  {
    SeedFormValue(fields, SignupSeed, i);
  }

  // ---------------------------------------------------------------------------
  // Social login

  /** A configured social-login entry: a URL, or a function whose call
      gives one. */
  datatype Endpoint = Url(url: string) | Thunk(result: string)

  /** The social-login part of the endpoint configuration. */
  datatype Endpoints = Endpoints(
    socialLogin: Option<map<string, Endpoint>>,
    socialAuthUrl: Option<Endpoint>,
    socialLoginUrl: Option<map<string, Endpoint>>)

  /** A truthy entry. */
  predicate Usable(e: Option<Endpoint>) {
    e.Some? && !(e.value.Url? && e.value.url == "")
  }

  function Entry(m: Option<map<string, Endpoint>>, k: string): Option<Endpoint> {
    if m.Some? && k in m.value then Some(m.value[k]) else None
  }

  /** The candidates in the order `||` tries them. */
  function Candidates(ep: Endpoints, provider: string): seq<Option<Endpoint>> {
    [Entry(ep.socialLogin, ToLower(provider)),
     Entry(ep.socialLogin, ToUpper(provider)),
     ep.socialAuthUrl,
     Entry(ep.socialLoginUrl, ToLower(provider))]
  }

  /** `a || b || ...` where only a usable result matters: the first usable
      candidate, if any. */
  function FirstUsable(cands: seq<Option<Endpoint>>): (r: Option<Endpoint>)
    ensures r.None? <==> forall i :: 0 <= i < |cands| ==> !Usable(cands[i])
    ensures r.Some? ==>
      exists i :: 0 <= i < |cands| && cands[i] == r && Usable(r) && (forall j :: 0 <= j < i ==> !Usable(cands[j]))
  {
    if |cands| == 0 then None
    else if Usable(cands[0]) then cands[0]
    else
      var r := FirstUsable(cands[1..]);
      assert forall i :: 0 < i < |cands| ==> cands[i] == cands[1..][i - 1];
      r
  }

  /** The URL `handleSocialLogin` looks up. */
  function LookupUrl(ep: Endpoints, provider: string): (r: Option<Endpoint>)
    ensures var lower := Entry(ep.socialLogin, ToLower(provider));
      Usable(lower) ==> r == lower
    ensures var lower := Entry(ep.socialLogin, ToLower(provider));
      var upper := Entry(ep.socialLogin, ToUpper(provider));
      !Usable(lower) && Usable(upper) ==> r == upper
    ensures var lower := Entry(ep.socialLogin, ToLower(provider));
      var upper := Entry(ep.socialLogin, ToUpper(provider));
      !Usable(lower) && !Usable(upper) && Usable(ep.socialAuthUrl) ==> r == ep.socialAuthUrl
    ensures var lower := Entry(ep.socialLogin, ToLower(provider));
      var upper := Entry(ep.socialLogin, ToUpper(provider));
      var last := Entry(ep.socialLoginUrl, ToLower(provider));
      !Usable(lower) && !Usable(upper) && !Usable(ep.socialAuthUrl) ==>
        r == (if Usable(last) then last else None)
  {
    var c := Candidates(ep, provider);
    assert c[3..][1..] == [];
    assert FirstUsable(c[3..]) == (if Usable(c[3]) then c[3] else None);
    assert c[2..][1..] == c[3..];
    assert FirstUsable(c[2..]) == (if Usable(c[2]) then c[2] else FirstUsable(c[3..]));
    assert c[1..][1..] == c[2..];
    assert FirstUsable(c[1..]) == (if Usable(c[1]) then c[1] else FirstUsable(c[2..]));
    FirstUsable(c)
  }

  /** Appends `provider=<key>` unless the URL already carries one. */
  function WithProvider(url: string, key: string): (r: string)
    ensures Includes(r, "provider=")
    ensures Includes(url, "provider=") ==> r == url
    ensures !Includes(url, "provider=") ==>
      r == url + (if Includes(url, "?") then "&" else "?") + "provider=" + key
  {
    if Includes(url, "provider=") then url
    else
      var r := url + (if Includes(url, "?") then "&" else "?") + "provider=" + key;
      assert OccursAt(r, "provider=", |url| + 1);
      r
  }

  /** Adding the provider twice is adding it once. */
  lemma WithProviderIdempotent(url: string, key: string, key': string)
    ensures WithProvider(WithProvider(url, key), key') == WithProvider(url, key)
  {
  }

  datatype SocialOutcome = Redirect(url: string) | Notice(message: string)

  /** Where `handleSocialLogin` sends the browser, or the notice it shows. */
  function SocialLogin(ep: Endpoints, provider: string): (r: SocialOutcome)
    ensures r.Redirect? <==> exists i :: 0 <= i < 4 && Usable(Candidates(ep, provider)[i])
    ensures r.Redirect? && LookupUrl(ep, provider).value.Url? ==>
      var url := LookupUrl(ep, provider).value.url;
      url <= r.url && Includes(r.url, "provider=") && r.url == WithProvider(url, ToLower(provider))
    ensures r.Redirect? && LookupUrl(ep, provider).value.Thunk? ==>
      r.url == LookupUrl(ep, provider).value.result
    ensures r.Notice? ==>
      r.message == "Social login for " + provider + " is not configured on this demo."
  {
    var found := LookupUrl(ep, provider);
    if found.None? then
      Notice("Social login for " + provider + " is not configured on this demo.")
    else
      match found.value
      case Thunk(result) => Redirect(result)
      case Url(url) => Redirect(WithProvider(url, ToLower(provider)))
  }

  /** The endpoint configuration the repository ships. */
  const AppEndpoints: Endpoints := Endpoints(
    Some(map["google" := Url("http://localhost:4000/auth/google"),
             "github" := Url("http://localhost:4000/auth/github")]),
    Some(Url("http://localhost:4000/auth/social")),
    None)

  /** A plain route without a query string gets `?provider=<lower-cased
      provider>` appended. */
  lemma PlainRouteRedirect(ep: Endpoints, provider: string, url: string)
    requires LookupUrl(ep, provider) == Some(Url(url))
    requires '=' !in url && '?' !in url
    ensures SocialLogin(ep, provider) == Redirect(url + "?provider=" + ToLower(provider))
  {
    var key := ToLower(provider);
    assert !Includes(url, "provider=") by {
      IncludesNeedsChar(url, "provider=", '=');
    }
    assert !Includes(url, "?") by {
      IncludesNeedsChar(url, "?", '?');
    }
    assert WithProvider(url, key) == url + "?provider=" + key by {
      assert url + "?" + "provider=" + key == url + "?provider=" + key;
    }
  }

  /** The URL the shipped configuration yields for a lower-cased provider:
      its own route for Google and GitHub, else the generic one. */
  function AppRoute(key: string): string {
    if key == "google" then "http://localhost:4000/auth/google"
    else if key == "github" then "http://localhost:4000/auth/github"
    else "http://localhost:4000/auth/social"
  }

  /** Upper-casing never produces a lower-case route key. */
  lemma UpperIsNoRoute(provider: string)
    ensures ToUpper(provider) != "google" && ToUpper(provider) != "github"
  {
    var upper := ToUpper(provider);
    if |upper| > 0 {
      assert !('a' <= upper[0] <= 'z');
    }
  }

  lemma AppLookup(provider: string)
    ensures LookupUrl(AppEndpoints, provider) == Some(Url(AppRoute(ToLower(provider))))
  {
    UpperIsNoRoute(provider);
    var key := ToLower(provider);
    var c := Candidates(AppEndpoints, provider);
    if key == "google" || key == "github" {
      assert c[0] == Some(Url(AppRoute(key))) && Usable(c[0]);
    } else {
      assert !Usable(c[0]) && !Usable(c[1]) && c[2] == Some(Url(AppRoute(key)));
    }
  }

  lemma AppRouteIsPlain(key: string)
    ensures '=' !in AppRoute(key) && '?' !in AppRoute(key)
  {
  }

  /** With the shipped configuration every provider is redirected, to its
      own route or to the generic one, with `?provider=<lower-cased
      provider>` appended. */
  lemma AppSocialLogin(provider: string)
    ensures SocialLogin(AppEndpoints, provider) ==
      Redirect(AppRoute(ToLower(provider)) + "?provider=" + ToLower(provider))
  {
    AppLookup(provider);
    AppRouteIsPlain(ToLower(provider));
    PlainRouteRedirect(AppEndpoints, provider, AppRoute(ToLower(provider)));
  }

  // ---------------------------------------------------------------------------
  // Page state

  class AuthPage {
    var isLogin: bool
    var loginForm: map<string, string>
    var loginErrors: Errors
    var signupFields: seq<FieldSpec>
    var signupForm: Form
    var signupErrors: Errors
    /** The token in storage. */
    var token: Option<string>
    /** The last navigation or redirect target. */
    var location: Option<string>
    /** The last snackbar message. */
    var notice: Option<string>

    ghost predicate Valid()
      reads this
    {
      IsLoginForm(loginForm)
    }

    constructor ()
      ensures Valid()
      ensures isLogin && loginForm == map["name" := "", "password" := ""] && loginErrors == map[]
      ensures signupFields == [] && signupForm == map[] && signupErrors == map[]
      ensures token.None? && location.None? && notice.None?
    {
      isLogin := true;
      loginForm := map["name" := "", "password" := ""];
      loginErrors := map[];
      signupFields := [];
      signupForm := map[];
      signupErrors := map[];
      token := None;
      location := None;
      notice := None;
    }

    /** The signup fields arrive; the form is seeded from them. */
    method LoadSignupFields(fields: seq<FieldSpec>)
      requires Valid()
      modifies this
      ensures Valid()
      ensures signupFields == fields && signupForm == SeedForm(fields, SignupSeed)
      ensures loginForm == old(loginForm) && signupErrors == old(signupErrors) && token == old(token)
    {
      signupFields := fields;
      signupForm := SeedForm(fields, SignupSeed);
    }

    /** Typing in a login input. */
    method SetLoginField(name: string, v: string)
      requires Valid()
      modifies this
      ensures Valid()
      ensures loginForm == old(loginForm)[name := v] && loginErrors == old(loginErrors)
    {
      loginForm := loginForm[name := v];
    }

    /** Typing in a signup input. */
    method SetSignupField(name: string, v: Value)
      requires Valid()
      modifies this
      ensures Valid()
      ensures signupForm == old(signupForm)[name := v] && signupErrors == old(signupErrors)
      ensures loginForm == old(loginForm)
    {
      signupForm := signupForm[name := v];
    }

    /** `validateLogin` */
    method ValidateLogin() returns (ok: bool)
      requires Valid()
      modifies this
      ensures Valid() && loginForm == old(loginForm)
      ensures loginErrors == LoginErrors(loginForm)
      ensures ok <==> !AllSpace(loginForm["name"]) && !AllSpace(loginForm["password"])
      ensures token == old(token) && location == old(location)
    {
      var newErrors: Errors := map[];
      if Trim(loginForm["name"]) == "" {
        newErrors := newErrors["name" := "Username is required"];
      }
      if Trim(loginForm["password"]) == "" {
        newErrors := newErrors["password" := "Password is required"];
      }
      loginErrors := newErrors;
      ok := |newErrors| == 0;
    }

    /** `handleLogin`: the demo token is stored, and the home page opened,
        only when validation passes. */
    method HandleLogin()
      requires Valid()
      modifies this
      ensures Valid() && loginForm == old(loginForm) && loginErrors == LoginErrors(loginForm)
      ensures loginErrors == map[] ==> token == Some("demo-token") && location == Some("/home")
      ensures loginErrors != map[] ==> token == old(token) && location == old(location)
    {
      var ok := ValidateLogin();
      if !ok {
        return;
      }
      token := Some("demo-token");
      location := Some("/home");
    }

    /** `validateSignup` */
    method ValidateSignup() returns (ok: bool)
      requires Valid()
      modifies this
      ensures Valid() && signupForm == old(signupForm) && signupFields == old(signupFields)
      ensures signupErrors == SignupErrors(signupFields, signupForm)
      ensures ok <==> signupErrors == map[]
      ensures token == old(token) && location == old(location)
    {
      var newErrors: Errors := map[];
      for i := 0 to |signupFields|
        invariant newErrors == RequiredErrors(signupFields[..i], signupForm, Falsy)
      {
        var f := signupFields[i];
        assert signupFields[..i + 1][..i] == signupFields[..i];
        if f.required && !Truthy(Get(signupForm, f.name)) {
          newErrors := newErrors[f.name := RequiredMessage(f)];
        }
      }
      assert signupFields[..|signupFields|] == signupFields;
      signupErrors := newErrors;
      ok := |newErrors| == 0;
    }

    /** `handleSignup`: the form is posted only when validation passes. */
    method HandleSignup() returns (posted: Option<Form>)
      requires Valid()
      modifies this
      ensures Valid() && signupForm == old(signupForm)
      ensures signupErrors == SignupErrors(signupFields, signupForm)
      ensures posted.Some? <==> signupErrors == map[]
      ensures posted.Some? ==> posted.value == signupForm
    {
      var ok := ValidateSignup();
      if !ok {
        return None;
      }
      posted := Some(signupForm);
    }

    /** `handleSocialLogin`: a redirect, or a notice and no redirect. */
    method HandleSocialLogin(ep: Endpoints, provider: string)
      requires Valid()
      modifies this
      ensures Valid() && loginForm == old(loginForm) && token == old(token)
      ensures SocialLogin(ep, provider).Redirect? ==>
        location == Some(SocialLogin(ep, provider).url) && notice == old(notice)
      ensures SocialLogin(ep, provider).Notice? ==>
        notice == Some(SocialLogin(ep, provider).message) && location == old(location)
    {
      var outcome := SocialLogin(ep, provider);
      match outcome
      case Redirect(url) => location := Some(url);
      case Notice(message) => notice := Some(message);
    }

    /** The "Sign up" link: leaves login mode and clears its errors. */
    method SwitchToSignup()
      requires Valid()
      modifies this
      ensures Valid() && !isLogin && loginErrors == map[]
      ensures loginForm == old(loginForm) && signupForm == old(signupForm) && signupErrors == old(signupErrors)
    {
      isLogin := false;
      loginErrors := map[];
    }

    /** The "Login" link: leaves signup mode and clears its errors. */
    method SwitchToLogin()
      requires Valid()
      modifies this
      ensures Valid() && isLogin && signupErrors == map[]
      ensures loginForm == old(loginForm) && signupForm == old(signupForm) && loginErrors == old(loginErrors)
    {
      isLogin := true;
      signupErrors := map[];
    }
  }
}
