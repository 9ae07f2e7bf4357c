/**
 The form's validator: every field is checked on its own, every error is
 collected, and the result maps a field to the one message shown beside
 its input.

 `Validate` follows the order and shape of the form's own checks. Its
 contract ties it to `Expected`, a separate statement of the same rules
 as a table: which fields each role requires, and which fields have a
 format a non-empty value must meet.
 */
module Validation {
  import opened Wrappers
  import opened Patterns
  import opened FormData

  /** The message for a required field left empty. */
  function MissingMessage(f: Field): string
  {
    match f
    case FullName => "Full Name is required"
    case Email => "Email is required"
    case PhoneNumber => "Phone Number is required"
    case Experience => "Relevant Experience is required"
    case PortfolioURL => "Portfolio URL is required"
    case ManagementExperience => "Management Experience is required"
    case Skills => "At least one skill must be selected"
    case InterviewTime => "Preferred Interview Time is required"
    case Position => ""  // the position is never reported
  }

  /** The fields whose non-empty value must have a particular shape. */
  const Formatted: set<Field> := {Email, PhoneNumber, Experience, PortfolioURL}

  /** The message for a non-empty value of the wrong shape. */
  function MalformedMessage(f: Field): string
  {
    match f
    case Email => "Email must be a valid email address"
    case PhoneNumber => "Phone Number must be a valid number"
    case Experience => "Experience must be greater than 0"
    case PortfolioURL => "Portfolio URL must be a valid URL"
    case _ => ""  // the other fields have no format, see `Formatted`
  }

  /** Whether an experience text coerces to a number that is not greater
      than zero. */
  predicate NotPositive(s: string) {
    ToNumber(s).Some? && ToNumber(s).value <= 0
  }

  const AllFields: set<Field> :=
    {FullName, Email, PhoneNumber, Position, Experience, PortfolioURL,
     ManagementExperience, Skills, InterviewTime}

  /** The form's check of one field, with the same branches as the form's
      code: the position is compared as text, and each field's
      else-branch applies whatever the position. */
  function Check(a: Application, f: Field): Option<string>
  {
    match f
    case FullName =>
      if a.fullName == "" then Some(MissingMessage(FullName)) else None
    case Email =>
      if a.email == "" then Some(MissingMessage(Email))
      else if !IsEmail(a.email) then Some(MalformedMessage(Email))
      else None
    case PhoneNumber =>
      if a.phoneNumber == "" then Some(MissingMessage(PhoneNumber))
      else if !DigitRun(a.phoneNumber) then Some(MalformedMessage(PhoneNumber))
      else None
    case Position =>
      None
    case Experience =>
      if (a.position == "Developer" || a.position == "Designer") && a.experience == "" then
        Some(MissingMessage(Experience))
      else if a.experience != "" && NotPositive(a.experience) then
        Some(MalformedMessage(Experience))
      else None
    case PortfolioURL =>
      if a.position == "Designer" && a.portfolioURL == "" then
        Some(MissingMessage(PortfolioURL))
      else if a.portfolioURL != "" && !IsHttpUrl(a.portfolioURL) then
        Some(MalformedMessage(PortfolioURL))
      else None
    case ManagementExperience =>
      if a.position == "Manager" && a.managementExperience == "" then
        Some(MissingMessage(ManagementExperience))
      else None
    case Skills =>
      if !a.skills.Any() then Some(MissingMessage(Skills)) else None
    case InterviewTime =>
      if a.interviewTime == "" then Some(MissingMessage(InterviewTime)) else None
  }

  /** Every field checked on its own and every error collected: the
      validator reports, under every field, exactly the error the rule
      table expects, and never reports the position. */
  function Validate(a: Application): (errs: map<Field, string>)
    ensures forall f :: f in errs <==> Expected(a, f).Some?
    ensures forall f :: f in errs ==> errs[f] == Expected(a, f).value
    ensures Position !in errs
  {
    assert forall f :: Check(a, f) == Expected(a, f) by {
      forall f ensures Check(a, f) == Expected(a, f) {
        CheckMatchesTable(a, f);
      }
    }
    map f | f in AllFields && Check(a, f).Some? :: Check(a, f).value
  }

  /** The form's check of a field agrees with the rule table. */
  lemma CheckMatchesTable(a: Application, f: Field)
    ensures Check(a, f) == Expected(a, f)
  {
    if f in {Experience, PortfolioURL, ManagementExperience} {
      RoleCheckMatchesTable(a, f);
    }
  }

  /** The fields whose requirement depends on the role: the form's text
      comparisons of the position agree with the role table. */
  lemma RoleCheckMatchesTable(a: Application, f: Field)
    requires f in {Experience, PortfolioURL, ManagementExperience}
    ensures Check(a, f) == Expected(a, f)
  {
  }

  // ---------------------------------------------------------------------
  // The same rules as a table

  const AlwaysRequired: set<Field> := {FullName, Email, PhoneNumber, Skills, InterviewTime}

  /** The fields a role requires: the always-required ones, experience for
      developers and designers, a portfolio for designers, management
      experience for managers. */
  function RequiredFor(r: Role): set<Field>
  {
    match r
    case Unset => AlwaysRequired
    case Developer => AlwaysRequired + {Experience}
    case Designer => AlwaysRequired + {Experience, PortfolioURL}
    case Manager => AlwaysRequired + {ManagementExperience}
  }

  /** JavaScript falsiness of a field: the empty text, or no skill
      selected. */
  predicate Blank(a: Application, f: Field) {
    if f == Skills then !a.skills.Any() else Text(a, f) == ""
  }

  /** The format a non-empty value must meet; fields without a format
      meet it always. */
  predicate WellFormed(a: Application, f: Field)
    ensures f !in Formatted ==> WellFormed(a, f)
  {
    match f
    case Email => IsEmail(a.email)
    case PhoneNumber => DigitRun(a.phoneNumber)
    case Experience => !NotPositive(a.experience)
    case PortfolioURL => IsHttpUrl(a.portfolioURL)
    case _ => true
  }

  /** The error one field should carry: the missing message when it is
      blank and its role requires it, the malformed message when it is
      filled in with the wrong shape, and none otherwise. */
  function Expected(a: Application, f: Field): Option<string>
  {
    if Blank(a, f) && f in RequiredFor(RoleOf(a.position)) then Some(MissingMessage(f))
    else if !Blank(a, f) && !WellFormed(a, f) then Some(MalformedMessage(f))
    else None
  }

  /** Every message the validator reports is its own field's message:
      the missing message, or for a field with a format the malformed one;
      no reported message is empty. */
  lemma ErrorMessages(a: Application)
    ensures forall f :: f in Validate(a) ==>
      || Validate(a)[f] == MissingMessage(f)
      || (f in Formatted && Validate(a)[f] == MalformedMessage(f))
    ensures forall f :: f in Validate(a) ==> Validate(a)[f] != ""
  {
    forall f | f in Validate(a)
      ensures Validate(a)[f] == MissingMessage(f) || (f in Formatted && Validate(a)[f] == MalformedMessage(f))
      ensures Validate(a)[f] != ""
    {
      if Validate(a)[f] != MissingMessage(f) {
        assert !WellFormed(a, f);
      }
    }
  }

  // ---------------------------------------------------------------------
  // The rules field by field

  /** The full name is in error exactly when it is empty; text made only
      of spaces passes. */
  lemma FullNameRule(a: Application)
    ensures FullName in Validate(a) <==> a.fullName == ""
    ensures FullName in Validate(a) ==> Validate(a)[FullName] == "Full Name is required"
  {
  }

  /** The interview time is in error exactly when it is empty. */
  lemma InterviewTimeRule(a: Application)
    ensures InterviewTime in Validate(a) <==> a.interviewTime == ""
    ensures InterviewTime in Validate(a) ==> Validate(a)[InterviewTime] == "Preferred Interview Time is required"
  {
  }

  /** An empty email gets only the required message; a filled-in email is
      reported exactly when the email regular expression rejects it. */
  lemma EmailRules(a: Application)
    ensures a.email == "" ==> Email in Validate(a) && Validate(a)[Email] == "Email is required"
    ensures a.email != "" ==>
      && (Email in Validate(a) <==> !EmailLanguage(a.email))
      && (Email in Validate(a) ==> Validate(a)[Email] == "Email must be a valid email address")
  {
    EmailMatchesRegex(a.email);
  }

  /** The phone number is in error exactly when it is empty or holds a
      non-digit, that is, when the phone regular expression rejects it;
      the message is the required one only when it is empty. */
  lemma PhoneRules(a: Application)
    ensures PhoneNumber in Validate(a) <==> a.phoneNumber == "" || exists k :: 0 <= k < |a.phoneNumber| && !IsDigit(a.phoneNumber[k])
    ensures PhoneNumber in Validate(a) <==> !DigitsLanguage(a.phoneNumber)
    ensures PhoneNumber in Validate(a) ==>
      Validate(a)[PhoneNumber] ==
        (if a.phoneNumber == "" then "Phone Number is required" else "Phone Number must be a valid number")
  {
    PhoneMatchesRegex(a.phoneNumber);
  }

  /** Experience is required for developers and designers only; a filled-in
      experience that is not greater than zero is reported whatever the
      position. */
  lemma ExperienceRules(a: Application)
    ensures (Experience in Validate(a) && Validate(a)[Experience] == "Relevant Experience is required")
      <==> (a.position == "Developer" || a.position == "Designer") && a.experience == ""
    ensures (Experience in Validate(a) && Validate(a)[Experience] == "Experience must be greater than 0")
      <==> a.experience != "" && NotPositive(a.experience)
    ensures Experience in Validate(a) ==>
      Validate(a)[Experience] in {"Relevant Experience is required", "Experience must be greater than 0"}
    ensures a.experience != "" && AllSpace(a.experience) ==>
      Experience in Validate(a) && Validate(a)[Experience] == "Experience must be greater than 0"
  {
    CheckMatchesTable(a, Experience);
  }

  /** For experience entered as a number's decimal text, the greater-than-zero
      check rejects exactly the numbers that are not positive. */
  lemma ExperienceNumberRule(a: Application, years: int)
    requires a.experience == Show(years)
    ensures Experience in Validate(a) <==> years <= 0
  {
    ParseShow(years);
  }

  /** The portfolio is required for designers only; a filled-in portfolio
      is checked against the URL regular expression whatever the position,
      so a value left over from an earlier designer choice is still
      checked. */
  lemma PortfolioRules(a: Application)
    ensures (PortfolioURL in Validate(a) && Validate(a)[PortfolioURL] == "Portfolio URL is required")
      <==> a.position == "Designer" && a.portfolioURL == ""
    ensures a.portfolioURL != "" ==>
      && (PortfolioURL in Validate(a) <==> !UrlLanguage(a.portfolioURL))
      && (PortfolioURL in Validate(a) ==> Validate(a)[PortfolioURL] == "Portfolio URL must be a valid URL")
    ensures a.portfolioURL == "" && a.position != "Designer" ==> PortfolioURL !in Validate(a)
  {
    UrlMatchesRegex(a.portfolioURL);
  }

  /** Management experience is required for managers and has no format;
      the skills error appears exactly when no skill is selected, so
      selecting any one skill clears it. */
  lemma ManagementAndSkillsRules(a: Application, k: Skill)
    ensures ManagementExperience in Validate(a) <==> a.position == "Manager" && a.managementExperience == ""
    ensures Skills in Validate(a) <==> !a.skills.javaScript && !a.skills.css && !a.skills.python
    ensures Skills !in Validate(a.(skills := a.skills.With(k, true)))
  {
  }

  /** Submitting an otherwise empty form reports exactly the fields the
      chosen role requires, each with its missing message. */
  lemma EmptyFormRules(r: Role)
    ensures Validate(Initial.(position := OptionValue(r))).Keys == RequiredFor(r)
    ensures forall f :: f in Validate(Initial.(position := OptionValue(r))) ==>
      Validate(Initial.(position := OptionValue(r)))[f] == MissingMessage(f)
  {
    var a := Initial.(position := OptionValue(r));
    RoleOfOption(r);
    forall f | f != Position
      ensures Blank(a, f)
    {
    }
  }
}
