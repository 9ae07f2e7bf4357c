# Job application form: validator and submit state machine

This project models the logic of a two-screen job-application web form.
The first screen is a form component. It holds a record of nine fields:

- full name, email and phone number
- a position chosen from Developer, Designer and Manager
- relevant experience, a portfolio URL and management experience
- three skill check boxes
- a preferred interview time

The component also holds a map from field name to error message. Three
handlers act on this state:

- an input change rewrites one field;
- a submit validates the record and then either hands it to the summary
  screen and resets the form, or shows the errors;
- the reset puts the form back in its initial state.

The model has five modules:

- `Wrappers` (`wrappers.dfy`) holds the optional value used for a field's
  error and for the number a text may or may not denote.
- `Patterns` (`patterns.dfy`) holds the three regular expressions the
  validator uses, written as string predicates. The email pattern is
  `^\S+@\S+\.\S+$`, the phone pattern `^\d+$` and the URL pattern
  `^https?:\/\/\S+$`. Each pattern also has a ghost predicate for the
  language the expression denotes. A lemma proves that the validator's
  predicate accepts exactly that language. The module also holds the
  coercion JavaScript applies when the experience text is compared with
  zero: surrounding whitespace is trimmed and a text of whitespace only is
  zero. It also holds a decimal printer: reading back the printed text of
  any integer gives that integer.
- `FormData` (`formdata.dfy`) holds the record, its field names, the
  skill flags and the initial record. It also holds the reading of the
  position text as a role and the field-wise update a text input performs.
- `Validation` (`validation.dfy`) holds the validator. `Check` gives, field
  by field, the same branches as the form's code. `Validate` collects every
  field's error into a map. Its contract ties it to `Expected`, a separate
  statement of the rules as a table: which fields each role requires, and
  which fields have a format a non-empty value must meet. One lemma per
  field states that field's rule in the form's own terms.
- `FormMachine` (`formmachine.dfy`) holds the state machine. The state is
  the record and the errors on display. The events are a change and a
  submit. A step returns a `Navigate(record)` outcome instead of
  performing navigation. `Run` folds a sequence of events, and its
  contract says every record handed to the summary screen passes
  validation. `RunKeepsSnapshot` and `ReachableErrors` prove that the
  errors on display are always the whole result of one validation.

The position is kept as the text the select produced, as in the form. It
is read as a role only where the form compares it with the option values.
Any other text behaves as no selection.

## Model

| member | source | states |
|---|---|---|
| `Patterns.EmailMatchesRegex` | src/components/JobApplicationForm.jsx:60 | The validator's email predicate (an at-sign after at least one character, a later dot with a character on each side, no whitespace) accepts exactly the strings of the form non-space-run `@` non-space-run `.` non-space-run, in both directions |
| `Patterns.UrlMatchesRegex` | src/components/JobApplicationForm.jsx:75 | The URL predicate accepts exactly `http://` or `https://` followed by one or more non-whitespace characters, in both directions |
| `Patterns.PhoneMatchesRegex` | src/components/JobApplicationForm.jsx:65 | The validator's phone predicate (non-empty, every character an ASCII digit) accepts exactly the strings of the form one digit followed by any number of digits, in both directions |
| `Patterns.PatternExamples` | src/components/JobApplicationForm.jsx:58-77 | `foo`, `a@.com` and `a b@c.d` are rejected as emails and `a@b.com` is accepted; `https://x.io` and `http://x` are accepted as URLs, while `https://`, `ftp://x.io` and `http:// x` are rejected |
| `Patterns.ParseInt` | src/components/JobApplicationForm.jsx:70 | A text is read as an integer literal exactly when it is an optional sign followed by one or more ASCII digits; a minus sign gives a value of at most zero and no minus sign gives a value of at least zero |
| `Patterns.ToNumber` | src/components/JobApplicationForm.jsx:70 | The number the experience text is compared by: a text of whitespace only, the empty text included, is zero, as JavaScript's `Number` makes it; a text that is an integer literal gives that integer; and conversely a number comes only from whitespace alone or from an integer literal with whitespace before and after it, so any other text is not a number |
| `Patterns.TrimSplits` | src/components/JobApplicationForm.jsx:70 | The whitespace trimming `Number` applies before reading a literal removes whitespace from the two ends of the text and nothing else: the text is whitespace, then the trimmed part, then whitespace |
| `Patterns.ToNumberIgnoresPadding` | src/components/JobApplicationForm.jsx:70 | Whitespace added before and after an experience text does not change the number it is compared by |
| `Patterns.ParseShow` | src/components/JobApplicationForm.jsx:70 | Reading back the canonical decimal text of any integer gives that integer, so a number typed into the experience input is compared by its value |
| `Patterns.ParseIntNonPositive` | src/components/JobApplicationForm.jsx:70 | An integer literal is at most zero exactly when it carries a minus sign or all its digits are zeros |
| `FormData.RoleOf` | src/components/JobApplicationForm.jsx:146-151 | A position text reads as a role other than unset only when it equals that role's option value, and each option value reads as its own role |
| `FormData.RoleOfOption` | src/components/JobApplicationForm.jsx:146-151 | Choosing any option of the position select and reading the position back gives the chosen role |
| `FormData.WithText` | src/components/JobApplicationForm.jsx:35-38 | Writing a text field sets that field to the new text and leaves every other text field and the skills unchanged |
| `Validation.Validate` | src/components/JobApplicationForm.jsx:53-88 | The error map has an entry for a field exactly when the rule table expects an error there, the entry is the expected message, and the position never gets an entry, so the keys are among the eight validated fields |
| `Validation.CheckMatchesTable` | src/components/JobApplicationForm.jsx:55-86 | Each field's check, as the form branches on it, gives the same result as the rule table: the missing message when the field is blank and the role requires it, the malformed message when it is filled in with the wrong shape, and nothing otherwise |
| `Validation.ErrorMessages` | src/components/JobApplicationForm.jsx:53-88 | Every message the validator reports is its own field's missing message, or, for email, phone, experience and portfolio, its malformed message; no reported message is empty |
| `Validation.FullNameRule` | src/components/JobApplicationForm.jsx:55-57 | The full name is in error, with "Full Name is required", exactly when it is empty; whitespace-only text passes |
| `Validation.InterviewTimeRule` | src/components/JobApplicationForm.jsx:84-86 | The interview time is in error, with "Preferred Interview Time is required", exactly when it is empty |
| `Validation.EmailRules` | src/components/JobApplicationForm.jsx:58-62 | An empty email gets only "Email is required". A non-empty email gets "Email must be a valid email address" exactly when the email regular expression rejects it. |
| `Validation.PhoneRules` | src/components/JobApplicationForm.jsx:63-67 | The phone number is in error exactly when it is empty or contains a non-digit, which is exactly when the phone regular expression rejects it; the message is the required one only when it is empty |
| `Validation.ExperienceRules` | src/components/JobApplicationForm.jsx:68-72 | "Relevant Experience is required" appears exactly for a Developer or Designer position with empty experience. "Experience must be greater than 0" appears exactly for a non-empty experience that is not greater than zero, whatever the position; a non-empty experience of whitespace only gets it, since it counts as zero. |
| `Validation.ExperienceNumberRule` | src/components/JobApplicationForm.jsx:68-72 | For experience entered as an integer's decimal text, the experience field is in error exactly when that integer is not positive |
| `Validation.PortfolioRules` | src/components/JobApplicationForm.jsx:73-77 | "Portfolio URL is required" appears exactly for a Designer with an empty URL. A non-empty URL is rejected exactly when the URL regular expression rejects it, whatever the position. An empty URL under any other position gives no error. |
| `Validation.ManagementAndSkillsRules` | src/components/JobApplicationForm.jsx:78-83 | Management experience is in error exactly for a Manager with an empty value, with no format check. The skills error appears exactly when all three flags are false, and ticking any one skill clears it. |
| `Validation.EmptyFormRules` | src/components/JobApplicationForm.jsx:53-88 | Submitting an otherwise empty form with any chosen role reports exactly the fields that role requires, each with its missing message |
| `FormMachine.HandleChange` | src/components/JobApplicationForm.jsx:24-40 | A check-box event sets only its own skill flag. Any other input sets only its own top-level field. Nothing else in the record changes, and the errors on display are kept. |
| `FormMachine.HandleSubmit` | src/components/JobApplicationForm.jsx:42-51 | A submit navigates exactly when the rule table expects no error anywhere. It navigates with the pre-submit record, and the state after it is the reset state: the initial record and no errors. Otherwise the record is unchanged and the errors become exactly the expected ones. |
| `FormMachine.RunChange` | src/components/JobApplicationForm.jsx:24-40 | An input change never hands a record on: a run that starts with a change is the run of the rest from the changed state |
| `FormMachine.Run` | src/components/JobApplicationForm.jsx:42-51 | Over any sequence of events, every record handed to the summary screen passes validation, and no more records are handed on than there were submits |
| `FormMachine.JaneIsValid` | src/components/JobApplicationForm.jsx:53-88 | A record filled in for a Developer has no validation errors. Its fields are name "Jane", email "a@b.com", phone "1234567890", experience "3", JavaScript ticked and an interview time. |
| `FormMachine.StepKeepsSnapshot` | src/components/JobApplicationForm.jsx:42-51 | If the errors on display are one validation's result, they still are after any event |
| `FormMachine.RunKeepsSnapshot` | src/components/JobApplicationForm.jsx:42-51 | The errors on display remain one validation's result over any sequence of events |
| `FormMachine.ReachableErrors` | src/components/JobApplicationForm.jsx:21-51 | From the initial state, after any events, the errors on display are one validation's result. No error is ever shown for the position. Each error is its own field's missing message, or the malformed message of a field with a format, and none is empty. |
| `FormMachine.ResubmitAfterReset` | src/components/JobApplicationForm.jsx:90-107 | After a successful submit, the form holds the initial record again. A second submit stays on the form and shows errors for exactly the five fields every role requires. |
| `FormMachine.FillAndSubmit` | src/components/JobApplicationForm.jsx:24-51 | Filling in the Developer record input by input from the initial state and then submitting hands exactly that record on, and every event after it runs as from the initial state |

## Left out

- Rendering, CSS and the React hooks are left out. The model passes state explicitly and returns navigation as an outcome.
- The browser enforces the HTML `required`, `min` and `type` attributes, so this code does not; they are not modelled.
- `src/App.js` is only route wiring.
- `src/components/Summary.jsx` only renders. It has no logic that changes state. It reads `relevantExperience`, `portfolioUrl` and `additionalSkills`, which the form never produces. It also expects a `formData` property that the routing never passes.
- Patterns.ToNumber: models JavaScript `Number` only for texts that are whitespace or an integer literal `[+-]?[0-9]+` with optional surrounding whitespace. `Number` also accepts decimals (`-1.5`), exponents (`1e3`), hexadecimal (`0x1`), binary (`0b0`, `0B1`) and octal (`0o7`, `0O0`) literals and `Infinity`. The model treats all such text as not a number, so it reports no experience error for it. The form does report one when the value is not positive: `-1.5` and `0b0` (which `Number` reads as 0) both get "Experience must be greater than 0" from the form and nothing from the model.
- Patterns.ParseInt: reads integer literals only, with no surrounding whitespace; `Patterns.ToNumber` adds the whitespace rules, and the other forms `Number` accepts are left out as above.
- Strings are sequences of Unicode scalar values, not UTF-16 code units. This does not change which strings match `\S` and `\d`: every character `\s` matches lies in the Basic Multilingual Plane.
- The handler calls navigate before reset. Whether React applies the reset to a form that is being unmounted is framework behaviour and is not modelled. The model's state after a successful submit is the reset state.

## Notes on the code

- The skills are a record of three booleans, one per check box.
- The experience is kept as the input's text. It is coerced to a number only when it is compared with zero.
- A non-empty portfolio URL is checked against the URL pattern whatever the position. A non-empty experience is compared with zero whatever the position.
