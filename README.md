# Abolaji UI components: a verified model of the stateful core

The library is mostly React markup mapping props to Tailwind class strings.
This project models the parts that carry behaviour and proves what they
promise:

- **The two style injectors.** These are run-once state machines over a
  module flag and the child list of `document.head`. The CDN-first injector
  falls back to an embedded `<style>` when the link fails.
- **The password strength scorer** and its display conditions.
- **The list and selection logic of the widgets:**
  - the multi-select (toggle, remove, the selected and filtered views);
  - the select (selected option, display value, search filter, open and
    focus transitions);
  - the file upload (drag state, append or replace, remove by index).
- **The progress percentage clamp** and its rounded label.
- **The input field's logic:**
  - the padding choice;
  - the error class;
  - the class-string normaliser (`trim` then collapse white space);
  - the input type;
  - the password toggle;
  - the error-over-helper precedence.
- **The form validators and state handlers of the login card and the demo
  pages:**
  - the required-field, length and e-mail rules;
  - clearing a field's error on input;
  - reset;
  - the toast lists;
  - the progress ticker;
  - the showcase page's sidebar and placeholder panel.

React state becomes a `class` whose fields are the `useState` values. Each
handler becomes a method that changes those fields. The expressions the
handlers compute (new lists, error objects, filtered options) become
functions. The lemmas about those functions state the properties.

Each validator is a sequence of rules (`FormErrors.Check`: field, failure
condition, message), and `FormErrors.Validate` folds them into an errors
map. The generic lemmas `ValidateAt`, `ValidateKeys` and `ValidateEmpty`
turn per-rule facts into facts about the map. Each handler method follows
the source's `if` statements, one group of rules per helper method, and is
proved equal to that fold.

The two e-mail regular expressions are defined twice:
- as the set of strings their grammar accepts (`StrictPattern`,
  `LoosePattern`);
- as a direct scan (`IsStrictEmail`, `IsLooseEmail`).

Each scan is proved to accept exactly its grammar's strings.

`src/pages/Utility.tsx` and `src/pages/Utility_New.tsx` hold the same
contact form, its handlers 204 lines apart. One module, `ContactForm`,
models both.

Where the prose description of the injector and the code differ, the model
follows the code:
- A link failure appends the fallback `<style>` after the link, which stays
  in the head; it does not replace the link.
- The reserved ids are `abolaji-ui-styles` and
  `abolaji-ui-styles-fallback`.
- Both injector variants are modelled, since both are in the code.

## Model

| member | source | states |
|---|---|---|
| HeadDom.AppendToHead | src/inject-styles.ts:31 | `appendChild` adds the element at the end of the head and leaves the rest of the document alone |
| HeadDom.CountId | src/inject-styles.ts:10 | the number of elements with an id is zero exactly when `getElementById` would find none |
| HeadDom.AppendToHeadCount | src/inject-styles-fixed.ts:643-646 | appending an element raises the count of its own id by one and leaves every other id's count unchanged |
| InjectStyles.Inject | src/inject-styles.ts:4-33 | a set flag or a missing document changes nothing; an existing reserved id only sets the flag; otherwise the CDN link is appended and the flag set before any outcome |
| InjectStyles.OnLoad | src/inject-styles.ts:21-23 | a load event leaves the document and the flag unchanged |
| InjectStyles.OnError | src/inject-styles.ts:25-29 | an error event on the pending link appends exactly the fallback `<style>` to the head; it changes nothing otherwise |
| InjectStyles.CallsAfterFirstChangeNothing | src/inject-styles.ts:31-32 | any number n >= 1 of calls does what the first call does |
| InjectStyles.HeadIsAppendOnly | src/inject-styles.ts:31 | no sequence of calls and load or error events removes, reorders or edits a head child or touches the rest of the document |
| InjectStyles.FirstCallOnFreshDocument | src/inject-styles.ts:197-199 | importing into a fresh document appends exactly the link (id, rel, jsdelivr href) and sets the flag |
| InjectStyles.StepKeepsInjected | src/inject-styles.ts:5-7 | after injection, one more call or event keeps exactly one reserved-id element and at most one fallback |
| InjectStyles.RunKeepsInjected | src/inject-styles.ts:4-33 | the same holds over any sequence of calls and events |
| InjectStyles.ImportThenAnyEvents | src/inject-styles.ts:197-199 | import into a fresh page, then anything: never a second stylesheet, never a second fallback |
| InjectStyles.ErrorAfterImport | src/inject-styles.ts:190-193 | a link failure after import leaves the head as the old head, then the link, then the fallback style |
| InjectStyles.Injector.Import | src/inject-styles.ts:197-199 | evaluating the module leaves the state the auto-call produces when a window exists |
| InjectStyles.Injector.InjectStyles | src/inject-styles.ts:4-33 | the method changes the flag and document as `Inject` says |
| InjectStyles.Injector.LinkOnLoad | src/inject-styles.ts:21-23 | the load callback changes the state as `OnLoad` says |
| InjectStyles.Injector.LinkOnError | src/inject-styles.ts:25-29 | the error callback changes the state as `OnError` says |
| InjectStylesFixed.Inject | src/inject-styles-fixed.ts:4-13 | a set flag or a missing document changes nothing; an existing reserved id only sets the flag; otherwise one `<style>` with the comprehensive CSS is appended and the flag is set |
| InjectStylesFixed.CallsOnlyAppendTheStyle | src/inject-styles-fixed.ts:643-646 | any number of calls keeps the old head as a prefix, leaves the rest of the document alone, and adds only the comprehensive style; never a link or a fallback |
| InjectStylesFixed.ExactlyOneAfterCalls | src/inject-styles-fixed.ts:648 | on a document without the reserved id, n >= 1 calls leave the flag set and exactly one element with that id |
| InjectStylesFixed.FlaggedCallsChangeNothing | src/inject-styles-fixed.ts:5-7 | with the flag set, any number of calls is a no-op |
| InjectStylesFixed.Injector.Import | src/inject-styles-fixed.ts:655-657 | evaluating the module runs the call exactly when a window exists |
| InjectStylesFixed.Injector.InjectStyles | src/inject-styles-fixed.ts:4-13 | the method changes the flag and document as `Inject` says |
| Password.Score | package-build/src/Password.tsx:39-44 | one point for each criterion met (at least 8 UTF-16 code units, a-z, A-Z, 0-9, other), so the score never exceeds 5 |
| Password.GetPasswordStrength | package-build/src/Password.tsx:36-56 | the empty password gives level 0; otherwise the score is the computed one, and the result is `levels[score]` |
| Password.NonEmptyScoresAtLeastOne | package-build/src/Password.tsx:41-44 | every non-empty password scores 1..5 and gets a non-empty label |
| Password.AppendNeverLowersScore | package-build/src/Password.tsx:39-44 | appending characters never lowers the score |
| Password.PasswordInput.constructor | package-build/src/Password.tsx:28 | the password starts masked |
| Password.ComputedStrength | package-build/src/Password.tsx:58 | a strength is computed exactly when `showStrength` is on |
| Password.IndicatorShown | package-build/src/Password.tsx:127 | the guard of the strength bar as written, with its `strength.score > 0` test; `IndicatorShownIff` states when it holds |
| Password.IndicatorShownIff | package-build/src/Password.tsx:127 | the strength bar shows exactly when `showStrength` is on and the value is non-empty |
| Password.InputType | package-build/src/Password.tsx:70 | the input type is "text" exactly when `showPassword` is on, "password" otherwise |
| Password.PasswordInput.ToggleVisibility | package-build/src/Password.tsx:86 | a click negates `showPassword` |
| Seqs.Filter | package-build/src/MultiSelect.tsx:64-66 | `filter` keeps exactly the passing elements, each as often as before, in their original order |
| Seqs.FilterAppend | package-build/src/MultiSelect.tsx:64-66 | filtering distributes over concatenation |
| Text.Trim | src/components/ui/Inputv2.tsx:174 | `trim` gives `s` with exactly its leading and trailing white space removed: an infix of `s` with only white space cut from each end, no white space at either of its own ends, and empty exactly when `s` is all white space |
| Text.TrimStart | src/components/ui/Inputv2.tsx:174 | strips exactly the leading white space: the rest of the string, starting at a non-white-space character |
| Text.TrimEnd | src/components/ui/Inputv2.tsx:174 | strips exactly the trailing white space |
| Text.Utf16Length | package-build/src/Password.tsx:40 | `.length` counts UTF-16 code units: at least one and at most two per character, zero exactly for the empty string |
| Text.Utf16LengthAppend | package-build/src/Password.tsx:40 | the length of a concatenation is the sum of the lengths |
| Text.Utf16LengthOfBmp | package-build/src/Card.tsx:443 | on characters of the Basic Multilingual Plane, `.length` is the number of characters |
| Text.BlankIsEmptyTrim | src/pages/AJStoryShowcase.tsx:173 | `!s.trim()` holds exactly when the string is empty or all white space |
| Text.Lower | package-build/src/Select.tsx:39 | lower-casing maps each character by the ASCII case fold and keeps the length |
| Text.ContainsEmpty | package-build/src/MultiSelect.tsx:37-39 | every label contains the empty search term |
| OptionLists.FilterByLabel | package-build/src/MultiSelect.tsx:37-39 | the filtered options are those whose lower-cased label contains the lower-cased term, in options order; an empty term keeps all |
| MultiSelect.SelectedOptions | package-build/src/MultiSelect.tsx:34-36 | exactly the options whose value occurs in `value`, in options order |
| MultiSelect.RemoveOption | package-build/src/MultiSelect.tsx:59-68 | no occurrence of the value survives; every other value keeps its count and relative order |
| MultiSelect.HandleSelect | package-build/src/MultiSelect.tsx:47-53 | an absent value is appended at the end (length + 1); a present one is removed everywhere |
| MultiSelect.SelectTwiceRestores | package-build/src/MultiSelect.tsx:47-50 | selecting an absent value twice gives back the original list |
| MultiSelect.MultiSelectBox.constructor | package-build/src/MultiSelect.tsx:31-32 | the list starts closed with an empty search |
| MultiSelect.MultiSelectBox.Click | package-build/src/MultiSelect.tsx:90 | a click toggles `isOpen` unless disabled |
| MultiSelect.MultiSelectBox.SearchChanged | package-build/src/MultiSelect.tsx:37-39 | typing stores the search term and leaves `isOpen` alone |
| MultiSelect.MultiSelectBox.Listed | package-build/src/MultiSelect.tsx:124 | the dropdown lists exactly the options matching the search term |
| MultiSelect.MultiSelectBox.DropdownShown | package-build/src/MultiSelect.tsx:124 | a disabled select never shows the dropdown; an enabled one shows it exactly while open |
| Select.FindSelected | package-build/src/Select.tsx:36 | `find` yields nothing exactly when no option's value matches, and otherwise gives the first option that matches |
| Select.DisplayValue | package-build/src/Select.tsx:42 | the display value is the selected option's label, or "" when none matches |
| Select.DisplayOfListedValue | package-build/src/Select.tsx:36-42 | the first option carrying a value supplies the label shown for it |
| Select.SelectBox.constructor | package-build/src/Select.tsx:32-34 | the select starts closed, unfocused, with an empty search |
| Select.SelectBox.InputText | package-build/src/Select.tsx:97 | the input shows the search term while focused or open, the display value otherwise |
| Select.SelectBox.NoOptionsMessage | package-build/src/Select.tsx:140-144 | "No options found" shows exactly when no option's label contains the search term; with an empty term, exactly when there are no options |
| Select.SelectBox.HandleSelect | package-build/src/Select.tsx:48-56 | emits exactly the chosen value, then closed, unfocused, with an empty search |
| Select.SelectBox.HandleInputChange | package-build/src/Select.tsx:62-67 | the typed text becomes the search term and the list is open |
| Select.SelectBox.HandleInputFocus | package-build/src/Select.tsx:69-72 | focus sets both focused and open |
| Select.SelectBox.BlurTimeoutFires | package-build/src/Select.tsx:74-80 | after the delayed blur: closed, unfocused, empty search |
| FileUpload.DragActiveAfter | src/components/ui/Fileupload.tsx:37-45 | dragenter and dragover set the flag, dragleave clears it, any other type leaves it |
| FileUpload.AddFiles | src/components/ui/Fileupload.tsx:68 | multiple mode appends the batch; single mode keeps only its first file, so length 1 |
| FileUpload.RemoveFile | src/components/ui/Fileupload.tsx:90-93 | exactly entry i is removed, the rest in order; an out-of-range i changes nothing |
| FileUpload.ChangeAsWritten | src/components/ui/Fileupload.tsx:78-84 | as written: multiple mode appends the selection; single mode leaves a one-entry list, `undefined` exactly when the selection is empty |
| FileUpload.EmptySelectionStoresUndefined | src/components/ui/Fileupload.tsx:78-84 | as written, an empty selection in single mode replaces the list with `[undefined]` |
| FileUpload.ChangeCorrected | src/components/ui/Fileupload.tsx:78-84 | corrected, an empty selection keeps the list; a non-empty one applies the append or replace rule, agreeing with the code as written |
| FileUpload.FileUploadBox.constructor | src/components/ui/Fileupload.tsx:30-31 | no drag in progress and no files |
| FileUpload.FileUploadBox.HandleDrag | src/components/ui/Fileupload.tsx:37-45 | the handler sets `dragActive` as `DragActiveAfter` says and leaves the files alone |
| FileUpload.FileUploadBox.HandleDrop | src/components/ui/Fileupload.tsx:61-74 | ends with `dragActive` false; an enabled non-empty drop applies the append or replace rule and passes the new list to `onChange`; otherwise the files are unchanged |
| FileUpload.FileUploadBox.HandleChange | src/components/ui/Fileupload.tsx:78-84 | applies the corrected change rule without consulting `disabled`, and forwards the event when `onChange` is given |
| FileUpload.FileUploadBox.RemoveFileAt | src/components/ui/Fileupload.tsx:90-93 | the files become `RemoveFile(old files, index)` |
| ProgressBar.Percentage | src/components/ui/ProgressBar.tsx:23 | the clamp lies in [0, 100]; it is value/max*100 for 0 <= value <= max, 100 at or above max, and 0 at or below 0 |
| ProgressBar.PercentageMonotone | src/components/ui/ProgressBar.tsx:23 | for a fixed positive max, a larger value never shows a smaller percentage |
| ProgressBar.DefaultsShowZero | src/components/ui/ProgressBar.tsx:14-15 | the defaults value 0 and max 100 give 0 |
| ProgressBar.Round | src/components/ui/ProgressBar.tsx:47 | `Math.round` gives the integer within half a unit, halves rounded up |
| ProgressBar.Label | src/components/ui/ProgressBar.tsx:47 | the label is an integer in 0..100 within half a unit of the percentage |
| InputField.Padding | src/components/ui/Inputv2.tsx:115-146 | a left icon gives pl-8/10/12 whatever the toggle; else the toggle gives pr-8/10/12; else px-3/px-3/px-4 |
| InputField.ErrorClass | src/components/ui/Inputv2.tsx:162-164 | the error class is non-empty exactly when `error` is |
| InputField.Collapse | src/components/ui/Inputv2.tsx:175 | the result is single-spaced: its only white space is plain spaces, never two in a row; it is empty exactly when the input is, each end stays white space or not as in the input, and a trailing run ends in one plain space; `WordsOfCollapse` shows the words between the runs survive |
| InputField.Normalize | src/components/ui/Inputv2.tsx:173-175 | no white space at the ends, only single plain spaces inside |
| InputField.InputClassName | src/components/ui/Inputv2.tsx:166-175 | the class string has no white space at its ends and no run of two white-space characters |
| InputField.NormalizeIdempotent | src/components/ui/Inputv2.tsx:173-175 | normalising a normalised string changes nothing |
| InputField.NormalizeKeepsClassNames | src/components/ui/Inputv2.tsx:173-175 | the white-space separated class names after normalising are exactly those before, in order: none is lost, merged with its neighbour or split |
| InputField.WordsOfTrim | src/components/ui/Inputv2.tsx:174 | `trim` keeps the sequence of words |
| InputField.WordsOfCollapse | src/components/ui/Inputv2.tsx:175 | replacing each white-space run by one space keeps the sequence of words |
| InputField.InputType | src/components/ui/Inputv2.tsx:222 | "text" exactly for a password input while `showPassword` is on; otherwise the type prop |
| InputField.NoteBelow | src/components/ui/Inputv2.tsx:299-303 | an error is shown over the helper text; the helper text shows only without an error |
| InputField.InputFieldState.constructor | src/components/ui/Inputv2.tsx:109 | the password starts masked |
| InputField.InputFieldState.HandleToggle | src/components/ui/Inputv2.tsx:207-210 | negates `showPassword` and calls `onToggle` exactly when it is supplied |
| EmailPatterns.IsStrictEmail | package-build/src/Card.tsx:383-384 | the scan accepts exactly the strings of `^[^\s@]+@[^\s@]+\.[^\s@]+$` |
| EmailPatterns.StrictEmailShape | package-build/src/Card.tsx:382-385 | accepted: no white space, exactly one `@` (not first), and after it a `.` with a character on each side |
| EmailPatterns.IsLooseEmail | src/pages/Utility.tsx:128 | the scan accepts exactly the strings containing a match of `\S+@\S+\.\S+` |
| EmailPatterns.StrictImpliesLoose | src/pages/Utility_New.tsx:332 | every address the anchored pattern accepts, the unanchored one accepts too |
| EmailPatterns.LooseAcceptsSurroundingText | src/pages/Utility.tsx:128 | the unanchored pattern accepts "mail: a@b.c", which the anchored one refuses |
| FormErrors.ClearError | src/pages/AJStoryShowcase.tsx:164-166 | an error that is set becomes ""; anything else is unchanged |
| FormErrors.ClearErrorOnlyRemoves | src/pages/AJStoryShowcase.tsx:164-166 | clearing never creates an error and leaves other fields' errors alone |
| FormErrors.Collected | package-build/src/Card.tsx:433-445 | the errors object has one entry per field whose message is non-empty, holding that message |
| FormErrors.CollectedIs | package-build/src/Card.tsx:433-445 | a map with exactly those entries is that errors object |
| FormErrors.ValidateKeys | src/pages/AJStoryShowcase.tsx:170-201 | the fields with an error are exactly those of the failing rules |
| FormErrors.ValidateAt | src/pages/AJStoryShowcase.tsx:170-201 | with distinct fields, a rule's field has an error exactly when the rule fails, holding its message |
| FormErrors.ValidateEmpty | src/pages/AJStoryShowcase.tsx:204 | the errors object is empty exactly when no rule fails |
| LoginCard.ValidateEmail | package-build/src/Card.tsx:382-385 | `validateEmail` is the anchored pattern |
| LoginCard.EmailMessage | package-build/src/Card.tsx:435-439 | "" gives "Email is required"; a non-empty invalid address gives "Please enter a valid email"; a valid one gives no error |
| LoginCard.PasswordMessage | package-build/src/Card.tsx:441-445 | "" gives "Password is required"; 1 to 5 UTF-16 code units give the length message; 6 or more give no error |
| LoginCard.SubmitErrors | package-build/src/Card.tsx:433-445 | an e-mail error exactly when the pattern fails, a password error exactly when shorter than 6 UTF-16 code units, each with its message; empty exactly when both pass |
| LoginCard.EmptyIsNotStrict | package-build/src/Card.tsx:435-437 | the empty string is not an address |
| LoginCard.SurrogatePairsCountTwice | package-build/src/Card.tsx:441-445 | three emoji outside the Basic Multilingual Plane have length 6 and pass the length rule |
| LoginCard.LoginForm.constructor | package-build/src/Card.tsx:366-376 | empty e-mail and password, remember-me off, no errors, not loading, masked |
| LoginCard.LoginForm.HandleEmailChange | package-build/src/Card.tsx:391-400 | stores the e-mail; clears an existing e-mail error only for a non-empty valid address |
| LoginCard.LoginForm.HandlePasswordChange | package-build/src/Card.tsx:406-413 | stores the password; clears an existing password error only at a length of 6 or more UTF-16 code units |
| LoginCard.LoginForm.HandleRememberMeChange | package-build/src/Card.tsx:419-421 | sets `rememberMe`; nothing else changes |
| LoginCard.LoginForm.ToggleShowPassword | package-build/src/Card.tsx:423-425 | negates `showPassword`; nothing else changes |
| LoginCard.LoginForm.HandleSubmit | package-build/src/Card.tsx:427-454 | errors become the recorded set; loading starts exactly when none was recorded |
| LoginCard.LoginForm.LoginFinished | package-build/src/Card.tsx:461-463 | the `finally` block clears `loading` |
| Toasts.Append | src/pages/AJStoryShowcase.tsx:236-243 | one visible toast with the given id, variant and message is added at the end; earlier ones are unchanged |
| Toasts.RemoveById | src/pages/AJStoryShowcase.tsx:250-252 | no toast with the id survives; every other toast keeps its count and relative order |
| Toasts.RemoveAbsentId | src/pages/AbolajiShowcase.tsx:76-78 | removing an id no toast carries leaves the list unchanged |
| Toasts.AppendThenRemove | src/pages/AJStoryShowcase.tsx:243-247 | a toast added under a fresh id and later removed by its timer restores the list |
| Toasts.DropOldest | src/pages/AbolajiShowcase.tsx:81-87 | `slice(1)` drops the first, oldest toast; an empty list stays empty |
| Toasts.DropOldestAfterAppend | src/pages/AbolajiShowcase.tsx:66-87 | on a non-empty list, dismissing the oldest commutes with adding a new toast |
| Ticker.Tick | src/pages/AJStoryShowcase.tsx:153 | the updater passed to `setProgressValue`; `TickStaysOnGrid` states what it keeps |
| Ticker.Ticks | src/pages/AJStoryShowcase.tsx:151-156 | the value after n callbacks from 0; `TicksStayOnGrid` and `TicksClimbThenWrap` state its values |
| Ticker.TickStaysOnGrid | src/pages/AJStoryShowcase.tsx:153 | one tick keeps the value a multiple of the step within 0..100 |
| Ticker.TicksStayOnGrid | src/pages/AJStoryShowcase.tsx:151-156 | from 0, every value is a multiple of the step (2 here, 10 on the contact pages) in 0..100 |
| Ticker.TicksClimbThenWrap | src/pages/Utility.tsx:114-119 | from 0 the value climbs by the step per tick up to 100, and the next tick wraps to 0 |
| StoryShowcase.With | src/pages/AJStoryShowcase.tsx:161 | `{...prev, [field]: value}` sets that field and keeps every other |
| StoryShowcase.Checks | src/pages/AJStoryShowcase.tsx:169-201 | nine rules, one per checked field; the rule lemmas below state what each one tests |
| StoryShowcase.ChecksDistinct | src/pages/AJStoryShowcase.tsx:170-201 | each rule is about a field of its own |
| StoryShowcase.ValidationErrors | src/pages/AJStoryShowcase.tsx:169-205 | the `newErrors` object, the fold of the nine rules; the rule lemmas state its entries |
| StoryShowcase.OnlyCheckedFields | src/pages/AJStoryShowcase.tsx:170-201 | only the nine checked fields can carry an error |
| StoryShowcase.NameRules | src/pages/AJStoryShowcase.tsx:173-175 | a first or last name error exactly when the trimmed name is empty |
| StoryShowcase.EmailRule | src/pages/AJStoryShowcase.tsx:176-180 | an error exactly when blank or not matching the anchored pattern; "Email is required" when blank, "Please enter a valid email address" otherwise |
| StoryShowcase.PasswordRule | src/pages/AJStoryShowcase.tsx:183-187 | an error exactly when shorter than 8 UTF-16 code units; "required" when empty, the length message otherwise |
| StoryShowcase.ConfirmRule | src/pages/AJStoryShowcase.tsx:189-191 | a confirmation error exactly when it differs from the password, whatever the other rules say |
| StoryShowcase.SelectionRules | src/pages/AJStoryShowcase.tsx:194-197 | country, birth date and experience get an error exactly when empty |
| StoryShowcase.BioRule | src/pages/AJStoryShowcase.tsx:199-201 | the bio gets an error exactly when its untrimmed length is below 50 UTF-16 code units |
| StoryShowcase.ValidIffEveryRulePasses | src/pages/AJStoryShowcase.tsx:203-204 | the errors object is empty exactly when all nine rules pass |
| StoryShowcase.InitialFormFails | src/pages/AJStoryShowcase.tsx:58-74 | the initial or reset form does not validate |
| StoryShowcase.ChangedValue | src/pages/AJStoryShowcase.tsx:160 | the stored value is `e.target.value` when the event has a target, `e` itself otherwise |
| StoryShowcase.CityOptions | src/pages/AJStoryShowcase.tsx:102-119 | us has four cities, ca and uk three each, any other country none |
| StoryShowcase.CheckNames | src/pages/AJStoryShowcase.tsx:172-175 | the two name rules extend the empty errors object as the first two rules say |
| StoryShowcase.CheckEmail | src/pages/AJStoryShowcase.tsx:176-180 | the e-mail rule extends it as the third rule says |
| StoryShowcase.CheckPasswords | src/pages/AJStoryShowcase.tsx:182-191 | the password rules extend it as the fourth and fifth rules say |
| StoryShowcase.CheckSelections | src/pages/AJStoryShowcase.tsx:193-197 | the location rules extend it as rules six to eight say |
| StoryShowcase.CheckBio | src/pages/AJStoryShowcase.tsx:199-201 | the bio rule completes the errors object |
| StoryShowcase.StoryForm.constructor | src/pages/AJStoryShowcase.tsx:58-85 | the initial form, no errors, not submitting, no toasts, progress 0 |
| StoryShowcase.StoryForm.ValidateForm | src/pages/AJStoryShowcase.tsx:169-205 | errors become exactly the failing rules' messages, the result says whether there are none, and the form is unchanged |
| StoryShowcase.StoryForm.HandleSubmit | src/pages/AJStoryShowcase.tsx:207-213 | an invalid form shows the error toast and stops; a valid one starts submitting |
| StoryShowcase.StoryForm.HandleInputChange | src/pages/AJStoryShowcase.tsx:159-167 | stores the changed value in that field only; an existing error of that field becomes "" |
| StoryShowcase.StoryForm.ShowToast | src/pages/AJStoryShowcase.tsx:232-243 | appends one visible toast |
| StoryShowcase.StoryForm.RemoveToast | src/pages/AJStoryShowcase.tsx:250-252 | removes the toasts with that id |
| StoryShowcase.StoryForm.HandleReset | src/pages/AJStoryShowcase.tsx:254-274 | the initial form, no errors, and the information toast |
| StoryShowcase.StoryForm.CurrentCities | src/pages/AJStoryShowcase.tsx:276-278 | the city list is non-empty exactly for us, ca and uk |
| StoryShowcase.StoryForm.TickProgress | src/pages/AJStoryShowcase.tsx:153 | one tick: 0 from 100 or more, otherwise plus 2 |
| ContactForm.With | src/pages/Utility.tsx:170-177 | sets that field and keeps every other |
| ContactForm.Digits | src/pages/Utility.tsx:173-175 | decimal digits only, at least one, and no leading zero |
| ContactForm.DecimalString | src/pages/Utility.tsx:173-175 | `String(n)` is plain decimal notation: a "-" exactly for negative n, then one or more decimal digits with no leading zero |
| ContactForm.DigitsRoundTrip | src/pages/Utility.tsx:173-175 | reading the digits of n back gives n |
| ContactForm.DecimalRoundTrip | src/pages/Utility.tsx:173-175 | reading `String(n)` back as a decimal gives n |
| ContactForm.Stored | src/pages/Utility.tsx:173-175 | a string is stored as it is; a number as a string that reads back as that number |
| ContactForm.Checks | src/pages/Utility.tsx:121-141 | five rules, one per field; the rule lemmas below state what each one tests |
| ContactForm.ChecksDistinct | src/pages/Utility.tsx:121-141 | each rule is about a field of its own |
| ContactForm.ValidationErrors | src/pages/Utility.tsx:121-144 | the `newErrors` object, the fold of the five rules; the rule lemmas state its entries |
| ContactForm.NameRule | src/pages/Utility.tsx:123-125 | a name error exactly when the trimmed name is empty |
| ContactForm.EmailRule | src/pages/Utility.tsx:126-130 | an error exactly when the trimmed e-mail is empty or no part matches `\S+@\S+\.\S+`; "required" when empty |
| ContactForm.SelectionRules | src/pages/Utility.tsx:131-136 | country and birth date get an error exactly when empty |
| ContactForm.MessageRule | src/pages/Utility.tsx:137-141 | an error exactly when the trimmed message is shorter than 20 UTF-16 code units; "required" when it is empty |
| ContactForm.ValidIffEveryRulePasses | src/pages/Utility.tsx:142-143 | the errors object is empty exactly when all five rules pass |
| ContactForm.EmptyFormFails | src/pages/Utility.tsx:185-194 | the emptied form has an error on every field |
| ContactForm.CheckNameAndEmail | src/pages/Utility.tsx:122-130 | the first two rules build the errors object as the rules say |
| ContactForm.CheckSelections | src/pages/Utility.tsx:131-136 | the next two extend it |
| ContactForm.CheckMessage | src/pages/Utility.tsx:137-141 | the message rule completes it |
| ContactForm.StorybookPreview.constructor | src/pages/Utility.tsx:25-58 | all five fields empty, no errors, not submitting, no alert, progress 0 |
| ContactForm.StorybookPreview.ValidateForm | src/pages/Utility.tsx:121-144 | errors become exactly the failing rules' messages, the result says whether there are none, and the form is unchanged (the same handler is at lines 325-348 of `src/pages/Utility_New.tsx`) |
| ContactForm.StorybookPreview.HandleSubmit | src/pages/Utility.tsx:146-151 | an invalid form returns before `isSubmitting` is set; a valid one sets it (the same handler is at lines 350-355 of `src/pages/Utility_New.tsx`) |
| ContactForm.StorybookPreview.SubmitTimeoutFires | src/pages/Utility.tsx:151-163 | the submit timeout: success alert, not submitting, emptied form, no errors |
| ContactForm.StorybookPreview.AlertTimeoutFires | src/pages/Utility.tsx:162 | the alert timeout clears the alert |
| ContactForm.StorybookPreview.HandleInputChange | src/pages/Utility.tsx:168-183 | stores the value as a string in that field only; an existing error of that field becomes "" (the same handler is at lines 372-387 of `src/pages/Utility_New.tsx`) |
| ContactForm.StorybookPreview.HandleReset | src/pages/Utility.tsx:185-194 | all five fields empty, no errors (the same handler is at lines 389-398 of `src/pages/Utility_New.tsx`) |
| ContactForm.StorybookPreview.TickProgress | src/pages/Utility_New.tsx:318-323 | one tick: 0 from 100 or more, otherwise plus 10 |
| AbolajiShowcase.SidebarIdsDistinct | src/pages/AbolajiShowcase.tsx:128-149 | the 22 sidebar buttons have distinct ids |
| AbolajiShowcase.SidebarMatchesPanels | src/pages/AbolajiShowcase.tsx:128-149 | the 22 `activeShowcaseTab === "..."` panel guards (lines 170 to 5246) name the sidebar ids, in the same order |
| AbolajiShowcase.PlaceholderListMatchesGuards | src/pages/AbolajiShowcase.tsx:5632-5655 | the list the placeholder tests with `includes` holds exactly the ids of the panel guards, in their order |
| AbolajiShowcase.ItemClass | src/pages/AbolajiShowcase.tsx:155-157 | a button gets the highlight class exactly when its id is the active tab |
| AbolajiShowcase.HighlightedItems | src/pages/AbolajiShowcase.tsx:155-157 | the highlighted buttons are those whose id is the active tab |
| AbolajiShowcase.HighlightedIsUnique | src/pages/AbolajiShowcase.tsx:155-157 | no button is highlighted for an unknown tab, and exactly the matching one otherwise |
| AbolajiShowcase.PlaceholderShown | src/pages/AbolajiShowcase.tsx:5632-5655 | the placeholder guard, `!list.includes(activeShowcaseTab)`; `PlaceholderIffNoPanel` states when it holds |
| AbolajiShowcase.PlaceholderIffNoPanel | src/pages/AbolajiShowcase.tsx:5632-5656 | the placeholder shows exactly when no panel of its own does |
| AbolajiShowcase.ExactlyOneView | src/pages/AbolajiShowcase.tsx:5632-5656 | for any tab, either the placeholder or a panel shows, never both, and never two panels |
| AbolajiShowcase.Showcase.constructor | src/pages/AbolajiShowcase.tsx:28-30 | no toasts, and the overview tab is active |
| AbolajiShowcase.Showcase.AddToast | src/pages/AbolajiShowcase.tsx:66-74 | appends one visible toast |
| AbolajiShowcase.Showcase.RemoveToast | src/pages/AbolajiShowcase.tsx:76-78 | removes the toasts with that id |
| AbolajiShowcase.Showcase.AutoDismiss | src/pages/AbolajiShowcase.tsx:81-87 | drops the oldest toast |
| AbolajiShowcase.Showcase.ClickSidebarItem | src/pages/AbolajiShowcase.tsx:153 | the clicked id becomes the active tab; exactly that button is highlighted, its panel shows, and the placeholder does not |
| AbolajiShowcase.Showcase.BackToOverview | src/pages/AbolajiShowcase.tsx:5664 | back to "overview": the first button is highlighted and no placeholder shows |

## Left out

- Timers are not modelled. The 4-second toast timers, Select's 150 ms blur
  delay, the tickers' intervals, and the submit and alert timeouts are left
  out. Each callback is a method that produces the state the callback
  produces.
- Console output, `alert` and the simulated network wait of the login are
  not modelled. Neither is the upload loop in the story page's submit (it
  sets an upload progress that nothing checks).
- The stylesheet download is not modelled. Load and error are external
  events, and the CSS strings are opaque constants.
- `Date.now()` toast ids are parameters.
- `toLowerCase` is ASCII case folding, not full Unicode.
- White space (what `trim` strips and `\s` matches) is the JavaScript set
  of code points listed in `Text.IsSpace`. Strings are sequences of code
  points; `.length` is modelled by `Text.Utf16Length`, which counts a
  character outside the Basic Multilingual Plane as two code units. Lone
  surrogates are not modelled.
- ProgressBar.Percentage: computed over reals with `max > 0`. Floating-point
  rounding and the NaN or infinite results for `max <= 0` are not modelled.
- ContactForm.Stored: numbers are JavaScript's safe integers. The
  exponent notation `String` uses for huge magnitudes, fractions, and `-0`
  are not modelled.
- StoryShowcase.TextOf reads a non-string value in a text field as "". The
  text inputs only hand strings to those fields.
- The markup and the Tailwind class tables of all components are not
  modelled. The one exception is the input field's class normaliser and
  padding.
- The story page's `handleInputChange` reads the errors of the render it
  was created in, while the update uses the previous state. Both are the
  same state here, since handlers run one at a time.
- StoryShowcase.StoryForm.HandleSubmit: only the synchronous part before
  the upload loop is modelled, not the later success toast and alert.
- The form-completion percentage and the other decorative floating-point
  values of the demo pages are not modelled.

## Findings

| source | as written | input that shows it | evidently intended | confidence | as-written member | corrected member |
|---|---|---|---|---|---|---|
| src/components/ui/Fileupload.tsx:78-84 | `handleChange` always replaces the list with `[newFiles[0]]` in single mode | in single mode, the `change` event with an empty `FileList` (the picker cancelled) stores `[undefined]`, which the list rendering at lines 150-157 dereferences | an empty selection leaves the list alone, as `handleDrop` already does through its `files[0]` test | not executed | FileUpload.EmptySelectionStoresUndefined | FileUpload.ChangeCorrected |
