/** Clients of the `App` class that replay, from its contracts alone, the
    behaviour tests/test_app.py asserts and a full log-in-then-browse session. */
module Scenarios {
  import opened TutorStore
  import opened Auth
  import opened TutorApp

  const John := Tutor(1, "John Doe", "john.doe@tutorplanet.co.uk", "password")
  const Jane := Tutor(2, "Jane Smith", "jane.smith@tutorplanet.co.uk", "password")

  /** Seeding leaves exactly John Doe and Jane Smith, in that order. */
  method SeededTable() returns (tutors: seq<Tutor>)
    ensures tutors == [John, Jane]
  {
    var app := new App();
    app.Seed();
    tutors := app.tutors;
  }

  /** A sign-up with a fresh email succeeds and adds one row for it. */
  method SignupFreshEmail() returns (message: string, tutors: seq<Tutor>)
    ensures message == SignupSucceeded
    ensures tutors == [John, Jane, Tutor(3, "Samantha Doe", "samantha@example.com", "my_password")]
  {
    var app := new App();
    app.Seed();
    assert app.tutors == [John, Jane];
    message := app.Signup("Samantha Doe", "samantha@example.com", "my_password", false);
    tutors := app.tutors;
  }

  /** A sign-up with John Doe's email is refused and his row keeps its name. */
  method SignupTakenEmail() returns (message: string, tutors: seq<Tutor>)
    ensures message == SignupEmailInUse
    ensures tutors == [John, Jane]
    ensures tutors[0].email == "john.doe@tutorplanet.co.uk" && tutors[0].name == "John Doe"
  {
    var app := new App();
    app.Seed();
    assert app.tutors == [John, Jane];
    assert John in app.tutors;
    message := app.Signup("Johnny Doe", "john.doe@tutorplanet.co.uk", "my_password", false);
    tutors := app.tutors;
  }

  /** John logs in and may see his own account but not Jane's; a later login
      with a wrong password logs him out, so his own account is refused too. */
  method LoginThenBrowse() returns (reply: LoginReply, own: Page, other: Page, afterFailure: Page)
    ensures reply == LoginReply(LoginSucceeded, Some(1))
    ensures own == AccountPage(John)
    ensures other == PermissionDenied
    ensures afterFailure == PermissionDenied
  {
    var app := new App();
    app.Seed();
    assert app.tutors == [John, Jane];
    reply := app.Login("john.doe@tutorplanet.co.uk", "password");
    own := app.Account(1);
    other := app.Account(2);
    assert FindByCredentials(app.tutors, "john.doe@tutorplanet.co.uk", "wrong").None?;
    var failed := app.Login("john.doe@tutorplanet.co.uk", "wrong");
    afterFailure := app.Account(1);
  }
}
