/**
 The record the job-application form edits: nine top-level fields, one of
 which (the skills) is itself a record of three check-box flags.

 Every text field, the position included, holds whatever text its input
 last produced; the position is read as a role only where the form
 compares it with the three option values.
 */
module FormData {

  /** The role a position text selects. Any text other than the three
      option values, the empty text of the "Select" option included,
      behaves as no selection. */
  datatype Role = Unset | Developer | Designer | Manager

  /** The top-level keys of the record, which are also the keys the
      validator may report errors under. */
  datatype Field =
    | FullName | Email | PhoneNumber | Position | Experience
    | PortfolioURL | ManagementExperience | Skills | InterviewTime

  /** The fields a text input or the position select writes. */
  type TextField = f: Field | f != Skills witness FullName

  /** The check boxes of the skills catalog. */
  datatype Skill = JavaScript | CSS | Python

  datatype SkillFlags = SkillFlags(javaScript: bool, css: bool, python: bool) {

    function Has(k: Skill): bool {
      match k
      case JavaScript => javaScript
      case CSS => css
      case Python => python
    }

    /** The flags with one skill set to `checked` and the others kept. */
    function With(k: Skill, checked: bool): (r: SkillFlags)
      ensures r.Has(k) == checked
      ensures forall other: Skill :: other != k ==> r.Has(other) == Has(other)
    {
      match k
      case JavaScript => this.(javaScript := checked)
      case CSS => this.(css := checked)
      case Python => this.(python := checked)
    }

    /** Whether any skill is selected. */
    predicate Any()
    {
      javaScript || css || python
    }
  }

  datatype Application = Application(
    fullName: string,
    email: string,
    phoneNumber: string,
    position: string,
    experience: string,
    portfolioURL: string,
    managementExperience: string,
    skills: SkillFlags,
    interviewTime: string)

  /** The option value the position select offers for a role. */
  function OptionValue(r: Role): string
  {
    match r
    case Unset => ""
    case Developer => "Developer"
    case Designer => "Designer"
    case Manager => "Manager"
  }

  /** The role a position text selects, by comparison with the option
      values. */
  function RoleOf(position: string): (r: Role)
    ensures r != Unset ==> position == OptionValue(r)
    ensures forall q: Role :: q != Unset && position == OptionValue(q) ==> r == q
  {
    if position == "Developer" then Developer
    else if position == "Designer" then Designer
    else if position == "Manager" then Manager
    else Unset
  }

  /** Choosing an option and reading the position back gives that role. */
  lemma RoleOfOption(r: Role)
    ensures RoleOf(OptionValue(r)) == r
  {
  }

  const NoSkills := SkillFlags(false, false, false)

  /** The record the form starts from and is reset to. */
  const Initial := Application("", "", "", "", "", "", "", NoSkills, "")

  /** The text a field holds. */
  function Text(a: Application, f: TextField): string
  {
    match f
    case FullName => a.fullName
    case Email => a.email
    case PhoneNumber => a.phoneNumber
    case Position => a.position
    case Experience => a.experience
    case PortfolioURL => a.portfolioURL
    case ManagementExperience => a.managementExperience
    case InterviewTime => a.interviewTime
  }

  /** The record with one text field replaced. */
  function WithText(a: Application, f: TextField, value: string): (r: Application)
    ensures Text(r, f) == value
    ensures forall g: TextField :: g != f ==> Text(r, g) == Text(a, g)
    ensures r.skills == a.skills
  {
    match f
    case FullName => a.(fullName := value)
    case Email => a.(email := value)
    case PhoneNumber => a.(phoneNumber := value)
    case Position => a.(position := value)
    case Experience => a.(experience := value)
    case PortfolioURL => a.(portfolioURL := value)
    case ManagementExperience => a.(managementExperience := value)
    case InterviewTime => a.(interviewTime := value)
  }
}
