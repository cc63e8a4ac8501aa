# SoftSell landing page — a Dafny model of its interactive core

The site is a single-page marketing site for a software-license resale
business. Most of it is static copy. Four pieces of it carry behaviour, and
this project models those four and proves what they promise:

- **Chat widget** (`chat.dfy`, module `Chat`). This is a scripted assistant. Its
  transcript starts with one greeting and is only ever appended to. A
  non-blank utterance is appended as a user message, the input is cleared and
  a "typing" flag is raised. After a delay, a canned reply is chosen by an
  ordered chain of keyword tests on the lower-cased utterance, then appended,
  and the flag drops. The delay is modelled as a second step,
  `ChatWidget.Resolve`, over a first-in-first-out queue of texts still
  awaiting their reply. Every send uses the same 1500 ms delay, so the timers
  fire in the order of the sends. A ghost field `answered` records the texts
  already answered. The class invariant ties the transcript to
  `answered + pending`: one reply per answered text, in order, after the
  greeting.
- **Lead form** (`contact.dfy`, module `Contact`). It has five fields, and a
  validator that gives each field at most one error message. Name, e-mail,
  company and license type are required. The e-mail must also contain a
  match of the regular expression `\S+@\S+\.\S+`. Editing a field clears
  that field's error. A successful submit shows "submitting" for 1500 ms,
  then resets the form and shows a success notice for 5000 ms. The two
  timers are counters, and their expiries are separate steps.
- **Testimonials** (`testimonials.dfy`, module `TestimonialSection`). This
  covers three customer quotes, a five-star row per quote, and a carousel
  index with wrapping next/previous buttons and one dot per quote.
- **Theme** (`theme.dfy`, module `Theme`). The first theme comes from the
  stored preference, then from the system colour scheme, then falls back to
  light. A header toggle and a system-scheme listener replace it. An effect
  keeps the stored value and the `dark` document class in step with it.
  Browser storage and media queries are inputs; the stored value and the
  class are fields.

Shared string primitives are in `text.dfy` (module `Text`): `trim()`,
`toLowerCase()`, `includes()` and white space as `\s`/`\S` see it. They
cover ASCII only: white space is space, tab, line feed, vertical tab, form
feed and carriage return, and only `A`–`Z` have lower-case forms. `Option`
is in `wrappers.dfy`.

Behaviour of the code that the model keeps as written:
- Every reply uses the same 1500 ms delay, so replies arrive in send order;
  `Resolve` answers the oldest pending text.
- The Send button is disabled while a reply is being typed. Pressing Enter
  and clicking a suggested question do not check the typing flag, so both
  can send while a reply is still due. `KeyDown` and `ClickSuggestion` model
  that.
- The code does not check that the widget is still mounted before
  appending a reply, and neither does the model.

## Model

| member | source | states |
|---|---|---|
| Text.TrimStartDropsLeadingSpace | src/components/ChatWidget.tsx:42 | trimming the front removes a leading run of white space and nothing else, and leaves a string that does not start with white space |
| Text.TrimEndDropsTrailingSpace | src/components/ChatWidget.tsx:42 | trimming the end removes a trailing run of white space and nothing else, and leaves a string that does not end with white space |
| Text.BlankIffAllSpace | src/components/ChatWidget.tsx:42 | `!s.trim()` holds exactly when every character of `s` is white space |
| Text.IsBlank | src/components/ChatWidget.tsx:42 | `!s.trim()`, the blank test of the chat guard and of the form validator; BlankIffAllSpace and NotBlank state when it holds |
| Text.NotBlank | src/components/ChatWidget.tsx:42 | a string holding any non-space character is not blank |
| Text.Trim | src/components/ChatWidget.tsx:42 | `trim()`; its properties are stated by TrimStartDropsLeadingSpace, TrimEndDropsTrailingSpace and BlankIffAllSpace |
| Text.Lower | src/components/ChatWidget.tsx:60 | `toLowerCase()` over ASCII; its properties are stated by LowerIdempotent and SameUpToCaseLower |
| Text.Includes | src/components/ChatWidget.tsx:61-71 | `includes()`: the keyword occurs at some position; absence is stated by NotIncludesByChar and NotIncludesByPair |
| Text.LowerIdempotent | src/components/ChatWidget.tsx:60 | lower-casing twice equals lower-casing once |
| Text.SameUpToCaseLower | src/components/ChatWidget.tsx:60 | strings that differ only in letter case lower-case to the same string |
| Text.NotIncludesByChar | src/components/ChatWidget.tsx:61-71 | a keyword with a character the text lacks is not included in it |
| Text.NotIncludesByPair | src/components/ChatWidget.tsx:61-71 | a keyword with two adjacent characters that never stand together in the text is not included in it |
| Chat.TopicOf | src/components/ChatWidget.tsx:61-71 | the if/else keyword chain; ChainIsRuleTable proves it equals the first-match rule table, and FallbackIffNoKeyword gives its fallback case |
| Chat.ChooseTopic | src/components/ChatWidget.tsx:60-71 | the chain applied to the lower-cased text; CaseInsensitive and ChooseTopicOfLower state that case does not matter |
| Chat.Reply | src/components/ChatWidget.tsx:60-79 | the text of the appended bot message; ChatWidget.Resolve appends it for the oldest pending text |
| Chat.ReplyText | src/components/ChatWidget.tsx:62-70 | the five reply strings, one per branch of the chain; ReplyTextDistinct states that they differ |
| Chat.ReplyTextDistinct | src/components/ChatWidget.tsx:62-70 | the five replies are non-empty and pairwise different, so the reply tells which branch was taken |
| Chat.FirstMatchIsEarliest | src/components/ChatWidget.tsx:61-71 | the rule table answers with the topic of the earliest rule that fires |
| Chat.FirstMatchFallback | src/components/ChatWidget.tsx:69-70 | when no rule fires, the table answers with the fallback |
| Chat.ChainIsRuleTable | src/components/ChatWidget.tsx:60-71 | the if/else chain on the lower-cased text picks the same reply as the first-match rule table |
| Chat.SellAndLicenseWins | src/components/ChatWidget.tsx:61-62 | text with both "sell" and "license" gets the selling reply, whatever other keywords it holds |
| Chat.FallbackIffNoKeyword | src/components/ChatWidget.tsx:61-71 | the fallback reply is chosen exactly when none of the keyword tests holds |
| Chat.ChooseTopicOfLower | src/components/ChatWidget.tsx:60 | the choice depends only on the lower-cased text |
| Chat.CaseInsensitive | src/components/ChatWidget.tsx:60 | inputs that differ only in letter case get the same reply |
| Chat.ExampleQuestionTopics | src/components/ChatWidget.tsx:11-16 | the four suggested questions, in list order, select the first four replies |
| Chat.SellQuestionTopic | src/components/ChatWidget.tsx:12 | "How do I sell my license?" selects the selling reply |
| Chat.TypesQuestionKeywords | src/components/ChatWidget.tsx:13 | the lower-cased second question lacks "sell" and contains "type" |
| Chat.TypesQuestionTopic | src/components/ChatWidget.tsx:13 | the second question selects the license-types reply |
| Chat.DurationQuestionKeywords | src/components/ChatWidget.tsx:14 | the lower-cased third question lacks "license" and "type" and contains "long" |
| Chat.DurationQuestionTopic | src/components/ChatWidget.tsx:14 | the third question selects the turnaround reply |
| Chat.SecurityQuestionKeywords | src/components/ChatWidget.tsx:15 | the lower-cased fourth question lacks every earlier keyword and contains "secure" |
| Chat.SecurityQuestionTopic | src/components/ChatWidget.tsx:15 | the fourth question selects the security reply |
| Chat.ExampleQuestionsNotBlank | src/components/ChatWidget.tsx:11-16 | no suggested question is blank, so clicking one always sends |
| Chat.TextsBy | src/components/ChatWidget.tsx:5-9 | the texts of one sender's messages, in transcript order; TextsByAppend and TextsBySplit state its properties |
| Chat.TextsBySplit | src/components/ChatWidget.tsx:5-9 | every message is the user's or the bot's: the two projections together are as long as the transcript |
| Chat.TextsByAppend | src/components/ChatWidget.tsx:51 | appending a message adds its text to its sender's texts only |
| Chat.Replies | src/components/ChatWidget.tsx:56-81 | exactly one reply is owed per question |
| Chat.RepliesAppend | src/components/ChatWidget.tsx:73-79 | answering one more question adds exactly its reply at the end |
| Chat.InitialConsistent | src/components/ChatWidget.tsx:20-26 | the seeded transcript, one greeting with nothing pending, satisfies the invariant |
| Chat.SendKeepsConsistent | src/components/ChatWidget.tsx:45-53 | appending a user message and queueing its text keeps the invariant |
| Chat.ResolveKeepsConsistent | src/components/ChatWidget.tsx:73-80 | appending the reply to the oldest pending text and dequeueing it keeps the invariant |
| Chat.ConsistentCounts | src/components/ChatWidget.tsx:41-82 | bot messages plus pending texts are one more than user messages: every user message is answered or still pending; the transcript is the greeting, two messages per answered text and one per pending text |
| Chat.ChatWidget.constructor | src/components/ChatWidget.tsx:20-28 | the transcript is exactly the greeting, the input is empty and nobody is typing |
| Chat.ChatWidget.SuggestionsVisible | src/components/ChatWidget.tsx:173 | the suggestions show while the transcript has at most two messages; ClickSuggestion states its effect |
| Chat.ChatWidget.SendDisabled | src/components/ChatWidget.tsx:205 | the Send button is disabled while the input is blank or a reply is being typed; ClickSend states its effect |
| Chat.ChatWidget.SetInput | src/components/ChatWidget.tsx:196 | editing the input changes only the input and keeps the invariant, so a send can follow |
| Chat.ChatWidget.SendMessage | src/components/ChatWidget.tsx:41-56 | blank text changes nothing; other text is appended untrimmed as a user message, clears the input, raises the flag and queues its reply |
| Chat.ChatWidget.SendInput | src/components/ChatWidget.tsx:41 | sending with the default argument sends the current input |
| Chat.ChatWidget.KeyDown | src/components/ChatWidget.tsx:84-89 | Enter without Shift sends the input, whether or not a reply is being typed; any other key changes nothing |
| Chat.ChatWidget.ClickSend | src/components/ChatWidget.tsx:201-206 | the button does nothing while the input is blank or a reply is being typed, and otherwise sends the input |
| Chat.ChatWidget.ClickSuggestion | src/components/ChatWidget.tsx:173-180 | a suggestion sends its question while the transcript has at most two messages, and otherwise does nothing |
| Chat.ChatWidget.Resolve | src/components/ChatWidget.tsx:56-81 | the oldest pending text gets its chosen reply appended as a bot message, and the flag drops |
| Contact.OnlyPlaceholderIsEmpty | src/components/ContactForm.tsx:33-41 | only the placeholder entry of the license drop-down has the empty value |
| Contact.WithValue | src/components/ContactForm.tsx:45-48 | `{...values, [name]: value}`; WithValueSetsOnlyThatField states its effect |
| Contact.WithValueSetsOnlyThatField | src/components/ContactForm.tsx:45-48 | updating a field sets that field and leaves every other field as it was |
| Contact.WithoutError | src/components/ContactForm.tsx:51-55 | `{...errors, [name]: undefined}`; WithoutErrorClearsOnlyThatField states its effect |
| Contact.Truthy | src/components/ContactForm.tsx:51 | the `if (errors[name])` test: an entry that is present and not empty; ComputedErrorsTruthy and HandleChange state its use |
| Contact.ComputedErrorsTruthy | src/components/ContactForm.tsx:51-78 | every message the validator stores is non-empty, so a field it flagged passes the `errors[name]` test and an edit clears it |
| Contact.WithoutErrorClearsOnlyThatField | src/components/ContactForm.tsx:51-55 | clearing a field's error removes that entry and keeps every other one |
| Contact.PatternFound | src/components/ContactForm.tsx:68 | the meaning of `/\S+@\S+\.\S+/.test(s)`: some substring is a non-space run, `@`, a non-space run, `.`, a non-space run |
| Contact.EmailShaped | src/components/ContactForm.tsx:68 | the executable e-mail test; EmailShapedIffPatternFound proves it equals PatternFound |
| Contact.ShapedHasMatch | src/components/ContactForm.tsx:68 | every string the executable e-mail test accepts contains a match of `\S+@\S+\.\S+` |
| Contact.MatchIsShaped | src/components/ContactForm.tsx:68 | every match of the regular expression makes the executable test accept |
| Contact.EmailShapedIffPatternFound | src/components/ContactForm.tsx:68 | the executable test accepts exactly the strings the regular expression finds a match in |
| Contact.EmailShapedNotBlank | src/components/ContactForm.tsx:66-70 | a value the pattern accepts is never blank, so "invalid" and "required" never apply together |
| Contact.EmailExamplesAccepted | src/components/ContactForm.tsx:68 | "a@b.c" matches, and so does an address with text around it, because the pattern is not anchored |
| Contact.EmailExamplesRejected | src/components/ContactForm.tsx:68 | "a@b", "a @b.c" and "a@b." do not match |
| Contact.ComputeErrors | src/components/ContactForm.tsx:59-79 | the errors `validate()` collects; RequiredTextFields, EmailErrorCases, LicenseTypeRequiredIffUnselected and ValidIffAcceptable state them field by field |
| Contact.RequiredTextFields | src/components/ContactForm.tsx:62-74 | name and company get their "required" message exactly when they are only white space |
| Contact.EmailErrorCases | src/components/ContactForm.tsx:66-70 | the e-mail gets "required" when only white space, "invalid" when non-blank with no match, and no error exactly when the pattern matches |
| Contact.LicenseTypeRequiredIffUnselected | src/components/ContactForm.tsx:76-78 | the license type gets its message exactly when it is the empty string |
| Contact.SelectedLicenseAccepted | src/components/ContactForm.tsx:33-78 | choosing any drop-down entry but the placeholder satisfies the license-type requirement |
| Contact.ValidIffAcceptable | src/components/ContactForm.tsx:59-82 | no error is collected exactly when name, company and license type are filled and the e-mail matches; the message is never checked |
| Contact.ErrorCount | src/components/ContactForm.tsx:81 | `Object.keys(newErrors).length`; ErrorCountRange and ValidIffAcceptable state when it is zero |
| Contact.ErrorCountRange | src/components/ContactForm.tsx:81 | the count is at most five, and zero exactly when no entry is present |
| Contact.EmptyFormErrors | src/components/ContactForm.tsx:21-82 | the reset form fails all four required fields |
| Contact.ContactForm.constructor | src/components/ContactForm.tsx:21-31 | empty values, no errors, neither flag raised, no timer outstanding |
| Contact.ContactForm.HandleChange | src/components/ContactForm.tsx:43-57 | the field takes the new value; its error is cleared if one was shown; nothing else changes |
| Contact.ContactForm.Validate | src/components/ContactForm.tsx:59-82 | the shown errors become those of the current values, and the result is true exactly for an acceptable lead |
| Contact.ContactForm.HandleSubmit | src/components/ContactForm.tsx:84-91 | errors are shown; an acceptable lead raises the submitting flag and starts one 1500 ms timer; otherwise no flag changes |
| Contact.ContactForm.Submit | src/components/ContactForm.tsx:159-274 | pressing the submit button does nothing while it is disabled or the notice shows; otherwise it runs the handler, and it keeps at most one submission in flight |
| Contact.ContactForm.SubmitDisabled | src/components/ContactForm.tsx:274 | `disabled={isSubmitting}`; Submit states that pressing a disabled button changes nothing |
| Contact.ContactForm.FormShown | src/components/ContactForm.tsx:159 | the form, not the success notice, is rendered while `isSubmitted` is false; Submit states that a hidden form cannot be submitted |
| Contact.ContactForm.CompleteSubmission | src/components/ContactForm.tsx:91-106 | the submitting flag drops, the notice shows, the form is reset and a 5000 ms timer starts |
| Contact.ContactForm.ClearSubmitted | src/components/ContactForm.tsx:103-105 | the notice is hidden and nothing else changes |
| TestimonialSection.Next | src/components/Testimonials.tsx:70-74 | the index after the current one, wrapping; NextInRange, PrevNextInverse and FullCycle state its properties |
| TestimonialSection.Prev | src/components/Testimonials.tsx:76-80 | the index before the current one, wrapping; PrevInRange and PrevNextInverse state its properties |
| TestimonialSection.NextInRange | src/components/Testimonials.tsx:70-74 | "next" stays in range, wraps to 0 exactly from the last index, and equals adding one modulo the count |
| TestimonialSection.PrevInRange | src/components/Testimonials.tsx:76-80 | "previous" stays in range, wraps to the last index exactly from 0, and equals subtracting one modulo the count |
| TestimonialSection.PrevNextInverse | src/components/Testimonials.tsx:70-80 | previous undoes next and next undoes previous |
| TestimonialSection.NextTimesIsShift | src/components/Testimonials.tsx:70-74 | up to `n` presses of "next" advance the index by the number of presses, wrapping past the end once |
| TestimonialSection.FullCycle | src/components/Testimonials.tsx:70-74 | pressing "next" once per quote returns to the starting quote, and no smaller number of presses does |
| TestimonialSection.Stars | src/components/Testimonials.tsx:22-28 | the star row: five stars, star `i` filled when `i` is below the rating; StarsFilled counts the filled ones |
| TestimonialSection.RowFilled | src/components/Testimonials.tsx:22-28 | in a row of `m` stars filled below rating `r`, exactly `r` stars are filled, clamped to 0..m |
| TestimonialSection.StarsFilled | src/components/Testimonials.tsx:22-28 | every row has five stars, and a rating between 0 and 5 fills exactly that many |
| TestimonialSection.ShownRatings | src/components/Testimonials.tsx:46-68 | the three quotes show five, five and four filled stars |
| TestimonialSection.Carousel.constructor | src/components/Testimonials.tsx:44 | the carousel starts on the first quote |
| TestimonialSection.Carousel.NextTestimonial | src/components/Testimonials.tsx:70-74 | the index moves to the next quote, wrapping, and stays in range |
| TestimonialSection.Carousel.PrevTestimonial | src/components/Testimonials.tsx:76-80 | the index moves to the previous quote, wrapping, and stays in range |
| TestimonialSection.Carousel.SelectDot | src/components/Testimonials.tsx:98-104 | clicking a dot shows exactly that quote, and only that dot is highlighted |
| TestimonialSection.Carousel.Shown | src/components/Testimonials.tsx:97 | `testimonials[activeIndex]`, the quote on screen; SelectDot states that a clicked dot shows its quote |
| TestimonialSection.Carousel.DotActive | src/components/Testimonials.tsx:104 | `index === activeIndex`; SelectDot states that exactly the clicked dot is highlighted |
| Theme.InitialTheme | src/App.tsx:12-23 | the initializer's choice; InitialThemePriority and ReloadRestoresTheme state it |
| Theme.InitialThemePriority | src/App.tsx:12-23 | a non-empty stored value wins; otherwise dark exactly when media queries exist and the system prefers dark, else light; never empty |
| Theme.Toggled | src/App.tsx:44 | the toggle's update; ToggleCases and ToggleTwice state it |
| Theme.ToggleCases | src/App.tsx:43-45 | toggling gives light or dark, dark exactly from light, so everything else, unexpected stored values included, turns light |
| Theme.ToggleTwice | src/App.tsx:43-45 | toggling twice restores light or dark; an unexpected stored value ends as dark |
| Theme.FromMediaQuery | src/App.tsx:35 | the theme a system change sets; MediaQueryCases states it |
| Theme.MediaQueryCases | src/App.tsx:34-37 | a system change sets dark exactly when the query matches, whatever the earlier theme |
| Theme.ReloadRestoresTheme | src/App.tsx:14-27 | a stored theme is the theme of the next load, whatever the system prefers |
| Theme.ThemeHost.constructor | src/App.tsx:12-30 | where `matchMedia` exists, the initial theme is chosen by priority, then stored, and the `dark` class marks it |
| Theme.ThemeHost.SyncEffect | src/App.tsx:25-30 | storage holds the theme and the `dark` class is present exactly for the dark theme |
| Theme.ThemeHost.ToggleTheme | src/App.tsx:25-45 | the theme is toggled, stored, and the class is present exactly when it was light before |
| Theme.ThemeHost.MediaChange | src/App.tsx:25-37 | the theme follows the system scheme, is stored, and the class follows the match |

## Left out

- Message timestamps, clock formatting and auto-scrolling: these depend on the host clock, locale and DOM.
- The chat widget's open/closed toggle: it only shows or hides the panel.
- Real timers: the 1500 ms chat delay and the 1500/5000 ms form delays are modelled as explicit later steps. Nothing about wall-clock time is modelled.
- Chat.ChatWidget.Resolve: answers pending texts oldest first, the order equal 1500 ms delays give. Timers with different delays, which could fire out of order, are not modelled.
- Listener registration and removal for the media query (src/App.tsx:39-40): the model treats the listener as always installed.
- Theme.ThemeHost.constructor: requires `matchMedia` to exist. The initializer checks for it (src/App.tsx:19), but the effect calls it unchecked (src/App.tsx:33). Without it, the effect throws after writing storage and the class (src/App.tsx:27, 30), and the listener is never installed. That failing mount is not modelled.
- Contact.ContactForm.Submit: does not model the browser's own syntax check of the `type="email"` input (src/components/ContactForm.tsx:199-200; the form at line 174 does not turn it off). For a non-empty e-mail that fails that check, such as "x a@b.c y", the browser stops the submit event and `handleSubmit` never runs. The model runs the handler and, if the lead is otherwise acceptable, starts submitting.
- Browser storage, `matchMedia` and `classList` are inputs and fields, not I/O.
- React's re-render and batching semantics: each handler's updates are applied at once, in program order.
- Unicode: `trim`, `toLowerCase` and `\S` are modelled over ASCII white space and the letters `A`–`Z`.
- The quote texts of the testimonials are not modelled; names, roles, companies and ratings are.
- The desktop grid that shows all three quotes at once: it has no state.
- TestimonialSection.NextTimesIsShift: states the shift for at most `n` presses, which is what the full cycle needs, not the general modular form.
- TestimonialSection.Stars: ratings are whole numbers, as all three in the data are (src/components/Testimonials.tsx:52-66). The source types a rating as `number` (line 9), and with the fill test `i < rating` (line 26) a fractional rating such as 4.5 would fill five stars; fractional ratings are not modelled.
- Header, Hero, HowItWorks, WhyChooseUs, Logo, Footer and the button styles: static markup with no behaviour to state.
