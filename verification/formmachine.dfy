/**
 The form as a state machine. The state is the record being edited and
 the error messages on display; the events are an edit of a text input
 or the position select, a tick or untick of a skill check box, and a
 submit. A submit either hands the record on to the summary screen and
 resets the form, or keeps the record and shows the validator's errors.

 Navigation is not performed here: a step returns it as an outcome.
 */
module FormMachine {
  import opened Wrappers
  import opened Patterns
  import opened FormData
  import opened Validation

  datatype FormState = FormState(values: Application, errors: map<Field, string>)

  /** The state on mount and after a reset: the empty record, no errors. */
  const InitialState := FormState(Initial, map[])

  /** What an input's change event carries. */
  datatype Input =
    | TextInput(field: TextField, value: string)
    | Checkbox(skill: Skill, checked: bool)

  datatype Event = Change(input: Input) | Submit

  /** Whether a step stays on the form or moves to the summary screen
      carrying a record. */
  datatype Outcome = Stay | Navigate(formData: Application)

  datatype Transition = Transition(state: FormState, outcome: Outcome)

  /** An input change: a check box sets its own skill flag, any other
      input replaces its own top-level field. The errors on display are
      left as they were. */
  function HandleChange(s: FormState, input: Input): (r: FormState)
    ensures r.errors == s.errors
    ensures input.TextInput? ==>
      && Text(r.values, input.field) == input.value
      && (forall g: TextField :: g != input.field ==> Text(r.values, g) == Text(s.values, g))
      && r.values.skills == s.values.skills
    ensures input.Checkbox? ==>
      && r.values.skills.Has(input.skill) == input.checked
      && (forall k: Skill :: k != input.skill ==> r.values.skills.Has(k) == s.values.skills.Has(k))
      && (forall g: TextField :: Text(r.values, g) == Text(s.values, g))
  {
    match input
    case TextInput(field, value) =>
      s.(values := WithText(s.values, field, value))
    case Checkbox(skill, checked) =>
      s.(values := s.values.(skills := s.values.skills.With(skill, checked)))
  }

  /** A submit. It moves on exactly when the record is complete by the
      rule table, carrying the record as it was before the reset;
      otherwise the record stays and the validator's errors replace the
      ones on display. */
  function HandleSubmit(s: FormState): (t: Transition)
    ensures t.outcome.Navigate? <==> forall f :: Expected(s.values, f).None?
    ensures t.outcome.Navigate? ==> t.outcome.formData == s.values && t.state == InitialState
    ensures t.outcome.Stay? ==>
      && t.state.values == s.values
      && (forall f :: f in t.state.errors <==> Expected(s.values, f).Some?)
      && (forall f :: f in t.state.errors ==> t.state.errors[f] == Expected(s.values, f).value)
  {
    var errs := Validate(s.values);
    if errs == map[] then
      Transition(InitialState, Navigate(s.values))
    else
      assert exists f :: f in errs;
      Transition(s.(errors := errs), Stay)
  }

  function Step(s: FormState, e: Event): Transition
  {
    match e
    case Change(input) => Transition(HandleChange(s, input), Stay)
    case Submit => HandleSubmit(s)
  }

  /** The final state of a sequence of events and the records handed on
      to the summary screen, in order. */
  datatype Trace = Trace(final: FormState, sent: seq<Application>)

  function Sent(o: Outcome): seq<Application>
  {
    if o.Navigate? then [o.formData] else []
  }

  /** Runs events one after another. Every record handed on passes
      validation, and no more records are handed on than there are
      submits. */
  function Run(s: FormState, events: seq<Event>): (t: Trace)
    ensures forall a :: a in t.sent ==> Validate(a) == map[]
    ensures |t.sent| <= Submits(events)
    decreases |events|
  {
    if events == [] then Trace(s, [])
    else
      var step := Step(s, events[0]);
      var rest := Run(step.state, events[1..]);
      Trace(rest.final, Sent(step.outcome) + rest.sent)
  }

  function Submits(events: seq<Event>): nat
  {
    if events == [] then 0
    else (if events[0].Submit? then 1 else 0) + Submits(events[1..])
  }

  // ---------------------------------------------------------------------
  // Properties of runs

  /** A record filled in for the developer position; the validator finds
      nothing wrong with it. */
  const Jane := Application(
    "Jane", "a@b.com", "1234567890", "Developer", "3", "", "",
    SkillFlags(true, false, false), "2024-05-01T10:00")

  lemma JaneIsValid()
    ensures Validate(Jane) == map[]
  {
    assert IsEmail(Jane.email) by {
      assert Jane.email[1] == '@' && Jane.email[3] == '.';
    }
    assert DigitRun(Jane.phoneNumber);
    assert ToNumber(Jane.experience) == Some(3) by {
      assert DigitRun("3");
    }
    forall f ensures Check(Jane, f).None? {
    }
    forall f ensures f !in Validate(Jane) {
      CheckMatchesTable(Jane, f);
    }
  }

  /** The errors on display are always the whole result of one
      validation: never a mixture of two, and never edited by hand. */
  ghost predicate Snapshot(errs: map<Field, string>) {
    exists v :: errs == Validate(v)
  }

  lemma StepKeepsSnapshot(s: FormState, e: Event)
    requires Snapshot(s.errors)
    ensures Snapshot(Step(s, e).state.errors)
  {
    if e.Submit? && HandleSubmit(s).outcome.Navigate? {
      JaneIsValid();
    }
  }

  lemma {:induction false} RunKeepsSnapshot(s: FormState, events: seq<Event>)
    requires Snapshot(s.errors)
    ensures Snapshot(Run(s, events).final.errors)
    decreases |events|
  {
    if events != [] {
      StepKeepsSnapshot(s, events[0]);
      RunKeepsSnapshot(Step(s, events[0]).state, events[1..]);
    }
  }

  /** From the initial state, whatever the events, the errors on display
      are one validation's result, so they are never reported under the
      position and each carries its own field's message. */
  lemma ReachableErrors(events: seq<Event>)
    ensures Snapshot(Run(InitialState, events).final.errors)
    ensures Position !in Run(InitialState, events).final.errors
    ensures forall f :: f in Run(InitialState, events).final.errors ==>
      || Run(InitialState, events).final.errors[f] == MissingMessage(f)
      || (f in Formatted && Run(InitialState, events).final.errors[f] == MalformedMessage(f))
    ensures forall f :: f in Run(InitialState, events).final.errors ==>
      Run(InitialState, events).final.errors[f] != ""
  {
    assert Snapshot(InitialState.errors) by {
      JaneIsValid();
    }
    RunKeepsSnapshot(InitialState, events);
    var v :| Run(InitialState, events).final.errors == Validate(v);
    ErrorMessages(v);
  }

  /** Right after a successful submit, submitting again stays on the form
      and shows exactly the errors of the reset record: the five fields
      every role requires. */
  lemma ResubmitAfterReset(s: FormState)
    requires Validate(s.values) == map[]
    ensures HandleSubmit(HandleSubmit(s).state).outcome == Stay
    ensures HandleSubmit(HandleSubmit(s).state).state.values == Initial
    ensures HandleSubmit(HandleSubmit(s).state).state.errors.Keys == AlwaysRequired
  {
    EmptyFormRules(Unset);
    assert Initial.(position := OptionValue(Unset)) == Initial;
  }

  /** Running a sequence that starts with one event is that event's step
      followed by the run of the rest. */
  lemma RunCons(s: FormState, e: Event, rest: seq<Event>)
    ensures Run(s, [e] + rest) ==
      Trace(Run(Step(s, e).state, rest).final, Sent(Step(s, e).outcome) + Run(Step(s, e).state, rest).sent)
  {
    assert ([e] + rest)[1..] == rest;
  }

  /** An input change never hands a record on: running a sequence that
      starts with a change is running the rest from the changed state. */
  lemma RunChange(s: FormState, input: Input, rest: seq<Event>)
    ensures Run(s, [Change(input)] + rest) == Run(HandleChange(s, input), rest)
  {
    RunCons(s, Change(input), rest);
  }

  /** Submitting the filled-in developer record hands it on and resets the
      form, so whatever follows runs as from the initial state. */
  lemma SubmitJane(rest: seq<Event>)
    ensures Run(FormState(Jane, map[]), [Submit] + rest) ==
      Trace(Run(InitialState, rest).final, [Jane] + Run(InitialState, rest).sent)
  {
    JaneIsValid();
    RunCons(FormState(Jane, map[]), Submit, rest);
  }

  /** Typing in the developer's name, email and phone. */
  const ContactInputs: seq<Event> := [
    Change(TextInput(FullName, "Jane")),
    Change(TextInput(Email, "a@b.com")),
    Change(TextInput(PhoneNumber, "1234567890"))]

  /** Choosing the developer position and typing in the experience. */
  const RoleInputs: seq<Event> := [
    Change(TextInput(Position, "Developer")),
    Change(TextInput(Experience, "3"))]

  /** Ticking JavaScript and choosing an interview time. */
  const SkillAndTimeInputs: seq<Event> := [
    Change(Checkbox(JavaScript, true)),
    Change(TextInput(InterviewTime, "2024-05-01T10:00"))]

  /** The form once the developer's name, email and phone are typed in. */
  const JaneContact := FormState(
    Initial.(fullName := "Jane", email := "a@b.com", phoneNumber := "1234567890"), map[])

  /** The form once the developer position and experience are also
      entered. */
  const JaneRole := FormState(JaneContact.values.(position := "Developer", experience := "3"), map[])

  lemma FillContact(rest: seq<Event>)
    ensures Run(InitialState, ContactInputs + rest) == Run(JaneContact, rest)
  {
    var i0, i1, i2 := ContactInputs[0].input, ContactInputs[1].input, ContactInputs[2].input;
    var s1 := HandleChange(InitialState, i0);
    var s2 := HandleChange(s1, i1);
    assert ContactInputs + rest == [Change(i0)] + ([Change(i1)] + ([Change(i2)] + rest));
    RunChange(InitialState, i0, [Change(i1)] + ([Change(i2)] + rest));
    RunChange(s1, i1, [Change(i2)] + rest);
    RunChange(s2, i2, rest);
    assert HandleChange(s2, i2) == JaneContact;
  }

  lemma FillRole(rest: seq<Event>)
    ensures Run(JaneContact, RoleInputs + rest) == Run(JaneRole, rest)
  {
    var i0, i1 := RoleInputs[0].input, RoleInputs[1].input;
    var s1 := HandleChange(JaneContact, i0);
    assert RoleInputs + rest == [Change(i0)] + ([Change(i1)] + rest);
    RunChange(JaneContact, i0, [Change(i1)] + rest);
    RunChange(s1, i1, rest);
    assert HandleChange(s1, i1) == JaneRole;
  }

  lemma FillSkillAndTime(rest: seq<Event>)
    ensures Run(JaneRole, SkillAndTimeInputs + rest) == Run(FormState(Jane, map[]), rest)
  {
    var i0, i1 := SkillAndTimeInputs[0].input, SkillAndTimeInputs[1].input;
    var s1 := HandleChange(JaneRole, i0);
    assert SkillAndTimeInputs + rest == [Change(i0)] + ([Change(i1)] + rest);
    RunChange(JaneRole, i0, [Change(i1)] + rest);
    RunChange(s1, i1, rest);
    assert HandleChange(s1, i1) == FormState(Jane, map[]);
  }

  lemma Regroup(a: seq<Event>, b: seq<Event>, c: seq<Event>, d: seq<Event>, e: seq<Event>)
    ensures a + b + c + d + e == a + (b + (c + (d + e)))
  {
  }

  /** Filling in the developer record input by input and submitting hands
      exactly that record on and leaves the form as if freshly mounted:
      whatever follows runs as from the initial state. */
  lemma FillAndSubmit(rest: seq<Event>)
    ensures Run(InitialState, ContactInputs + RoleInputs + SkillAndTimeInputs + [Submit] + rest) ==
      Trace(Run(InitialState, rest).final, [Jane] + Run(InitialState, rest).sent)
  {
    Regroup(ContactInputs, RoleInputs, SkillAndTimeInputs, [Submit], rest);
    FillContact(RoleInputs + (SkillAndTimeInputs + ([Submit] + rest)));
    FillRole(SkillAndTimeInputs + ([Submit] + rest));
    FillSkillAndTime([Submit] + rest);
    SubmitJane(rest);
  }
}
