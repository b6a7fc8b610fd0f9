/**
 * The login / sign-up form of src/components/auth-form.tsx: the field
 * rules of the two schemas, the decision taken by `onSubmit` once the
 * simulated request completes, and the mode toggle with its field reset.
 *
 * The email format rule belongs to the form library and is a parameter
 * `isEmail`; the one-second delay is split into `Submit` and `TimerFired`.
 */
module AuthForm {
  import opened Types
  import opened Strings

  /** The only credentials the login accepts. */
  const TeacherEmail: string := "teacher@vidya.com"
  const TeacherPassword: string := "password"

  const MinPasswordLength: nat := 6
  const MinNameLength: nat := 2

  /** Where a successful login navigates. */
  const DashboardRoute: string := "/dashboard"

  datatype FormValues = FormValues(name: string, email: string, password: string)

  /** The default values, and what every mode change resets the fields to. */
  const EmptyValues: FormValues := FormValues("", "", "")

  /** `loginSchema`: a well-formed email and a password of at least six UTF-16 code units. */
  predicate LoginSchema(v: FormValues, isEmail: string -> bool)
  {
    isEmail(v.email) && Utf16Length(v.password) >= MinPasswordLength
  }

  /** `signUpSchema`: additionally a name of at least two UTF-16 code units. */
  predicate SignUpSchema(v: FormValues, isEmail: string -> bool)
  {
    Utf16Length(v.name) >= MinNameLength && isEmail(v.email) && Utf16Length(v.password) >= MinPasswordLength
  }

  /** The schema of the current mode; only accepted values reach `onSubmit`. */
  predicate Accepted(isSignUp: bool, v: FormValues, isEmail: string -> bool)
  {
    if isSignUp then SignUpSchema(v, isEmail) else LoginSchema(v, isEmail)
  }

  predicate KnownTeacher(v: FormValues)
  {
    v.email == TeacherEmail && v.password == TeacherPassword
  }

  /** How a press of the submit button ends. */
  datatype Outcome = Rejected | SignedUp | LoggedIn | LoginFailed

  /** The resolver's check, then the branch `onSubmit` takes. */
  function Decide(isSignUp: bool, v: FormValues, isEmail: string -> bool): (o: Outcome)
    ensures o == Rejected <==> !Accepted(isSignUp, v, isEmail)
    ensures o == SignedUp <==> isSignUp && Utf16Length(v.name) >= MinNameLength && isEmail(v.email) && Utf16Length(v.password) >= MinPasswordLength
    ensures o == LoggedIn <==> !isSignUp && isEmail(v.email) && v.email == TeacherEmail && v.password == TeacherPassword
    ensures o == LoginFailed <==> !isSignUp && isEmail(v.email) && Utf16Length(v.password) >= MinPasswordLength && !KnownTeacher(v)
  {
    if !Accepted(isSignUp, v, isEmail) then Rejected
    else if isSignUp then SignedUp
    else if KnownTeacher(v) then LoggedIn
    else LoginFailed
  }

  /** In both modes a password under six characters never gets through. */
  lemma ShortPasswordRejected(isSignUp: bool, v: FormValues, isEmail: string -> bool)
    requires Utf16Length(v.password) < MinPasswordLength
    ensures Decide(isSignUp, v, isEmail) == Rejected
  {
  }

  /** A sign-up with a name under two characters never gets through. */
  lemma ShortNameRejected(v: FormValues, isEmail: string -> bool)
    requires Utf16Length(v.name) < MinNameLength
    ensures Decide(true, v, isEmail) == Rejected
  {
  }

  /** Whatever its characters, a password of at most two characters is too short. */
  lemma TwoCharacterPasswordRejected(isSignUp: bool, v: FormValues, isEmail: string -> bool)
    requires |v.password| <= 2
    ensures Decide(isSignUp, v, isEmail) == Rejected
  {
  }

  /** Three characters outside the Basic Multilingual Plane make six code units, enough for the rule. */
  lemma AstralPasswordLength()
    ensures Utf16Length("\U{1F600}\U{1F600}\U{1F600}") == MinPasswordLength
  {
  }

  /** The login ignores the name field. */
  lemma LoginIgnoresName(v: FormValues, name: string, isEmail: string -> bool)
    ensures Decide(false, v.(name := name), isEmail) == Decide(false, v, isEmail)
  {
  }

  /** The callback the submit handler schedules, with the values and the mode it saw. */
  datatype Pending = Pending(signUp: bool, values: FormValues)

  class Auth {
    var isSignUp: bool
    var isLoading: bool
    var values: FormValues
    /** The scheduled `setTimeout` callback, if any. */
    var pending: Option<Pending>
    /** The route pushed by a successful login, if any. */
    var route: Option<string>

    constructor ()
      ensures !isSignUp && !isLoading && values == EmptyValues && pending == None && route == None
    {
      isSignUp, isLoading, values, pending, route := false, false, EmptyValues, None, None;
    }

    /** The user types into the fields. */
    method Edit(v: FormValues)
      modifies this
      ensures values == v
      ensures isSignUp == old(isSignUp) && isLoading == old(isLoading) && pending == old(pending) && route == old(route)
    {
      values := v;
    }

    /**
     * A press of the submit button: disabled while loading, blocked by the
     * schema; otherwise loading starts and the callback is scheduled.
     */
    method Submit(isEmail: string -> bool) returns (scheduled: bool)
      modifies this
      ensures scheduled <==> !old(isLoading) && Accepted(old(isSignUp), old(values), isEmail)
      ensures scheduled ==> isLoading && pending == Some(Pending(old(isSignUp), old(values)))
      ensures !scheduled ==> isLoading == old(isLoading) && pending == old(pending)
      ensures isSignUp == old(isSignUp) && values == old(values) && route == old(route)
    {
      if isLoading || !Accepted(isSignUp, values, isEmail) {
        return false;
      }
      isLoading := true;
      pending := Some(Pending(isSignUp, values));
      return true;
    }

    /** Sets the mode; the reset effect clears the fields only when the mode actually changes. */
    method SetMode(signUp: bool)
      modifies this
      ensures isSignUp == signUp
      ensures values == if signUp != old(isSignUp) then EmptyValues else old(values)
      ensures isLoading == old(isLoading) && pending == old(pending) && route == old(route)
    {
      if signUp != isSignUp {
        isSignUp := signUp;
        values := EmptyValues;
      }
    }

    /**
     * The delayed callback: a sign-up returns to login mode and stops
     * loading; a login with the known credentials navigates to the
     * dashboard (loading stays on); any other login stops loading.
     */
    method TimerFired()
      modifies this
      ensures old(pending) == None ==>
        isSignUp == old(isSignUp) && isLoading == old(isLoading) && values == old(values) && pending == None && route == old(route)
      ensures old(pending) != None ==> pending == None
      ensures old(pending) != None && old(pending).value.signUp ==>
        !isSignUp && !isLoading && route == old(route) &&
        values == (if old(isSignUp) then EmptyValues else old(values))
      ensures old(pending) != None && !old(pending).value.signUp && KnownTeacher(old(pending).value.values) ==>
        route == Some(DashboardRoute) && isLoading == old(isLoading) && isSignUp == old(isSignUp) && values == old(values)
      ensures old(pending) != None && !old(pending).value.signUp && !KnownTeacher(old(pending).value.values) ==>
        !isLoading && route == old(route) && isSignUp == old(isSignUp) && values == old(values)
    {
      if pending == None {
        return;
      }
      var p := pending.value;
      pending := None;
      if p.signUp {
        SetMode(false);
        isLoading := false;
      } else if KnownTeacher(p.values) {
        route := Some(DashboardRoute);
      } else {
        isLoading := false;
      }
    }

    /** `toggleForm`: flips the mode, which resets the three fields. */
    method ToggleForm()
      modifies this
      ensures isSignUp == !old(isSignUp) && values == EmptyValues
      ensures isLoading == old(isLoading) && pending == old(pending) && route == old(route)
    {
      SetMode(!isSignUp);
    }

    /**
     * A submit press followed by the timer, with nothing in between: the
     * state it ends in is the one `Decide` names.
     */
    method SubmitAndWait(isEmail: string -> bool) returns (o: Outcome)
      requires !isLoading && pending == None
      modifies this
      ensures o == Decide(old(isSignUp), old(values), isEmail)
      ensures o == Rejected ==> isSignUp == old(isSignUp) && values == old(values) && !isLoading && route == old(route)
      ensures o == SignedUp ==> !isSignUp && values == EmptyValues && !isLoading && route == old(route)
      ensures o == LoggedIn ==> route == Some(DashboardRoute) && isLoading && isSignUp == old(isSignUp) && values == old(values)
      ensures o == LoginFailed ==> !isLoading && route == old(route) && isSignUp == old(isSignUp) && values == old(values)
      ensures pending == None
    {
      o := Decide(isSignUp, values, isEmail);
      var scheduled := Submit(isEmail);
      if scheduled {
        TimerFired();
      }
    }
  }
}
