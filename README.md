# Golf-studio site script, modelled in Dafny

This project is a model of the decision logic in `script.js`, the client-side script of a small bilingual
(Thai/English) marketing site. The browser (DOM, `fetch`, `localStorage`, timers) is replaced by plain values and events:

- **Contact-form validator.** The fixed-order check inside `handleContactForm` gives one of `Ok`,
  `MissingFields`, `InvalidPhone` or `InvalidEmail`. Both regular expressions are written out as predicates
  over `seq<char>`, and JavaScript's `\s` is given as an explicit set of code points (module `Validation`).
- **Phone formatter.** This is the `input` listener on the `tel` control. It keeps the ASCII digits and
  inserts hyphens after the 3rd and 6th digit (module `PhoneFormat`).
- **Submission flow.** The form fields, the submit button's label and `disabled` flag, and the request in
  flight. The network result is an input: `Acknowledged`, `NotOk` or `Threw` (module `ContactForm`).
- **Notification slot.** `showNotification` keeps one toast at a time. Each toast has an identity, so a
  close click or auto-dismiss timer left over from a replaced toast does nothing. The icon and colour
  tables are total functions with a default case (module `Notification`).
- **Language switch.** The current language, its stored copy, the indicator label, the `lang` and
  `data-lang` attributes, and `updatePageContent` as a loop over the page's elements (module `Language`).
- **Mobile menu.** The hamburger and menu `active` classes, the bar styles, and the listeners that close
  the menu (module `MobileMenu`).
- **Header scroll.** `lastScrollY` and the hidden/translucent state of the header (module `HeaderScroll`).

State the script changes in place is a `class` with `modifies` clauses. Pure logic is a function with lemmas.

Two behaviours of the code are easy to miss, and the model states them as the code has them:

- Starting from `th` or `en` on a page drawn in that language (`Language.Page.Consistent`), toggling the
  language twice restores an element's text whenever its `data-th` and `data-en` are both empty or both
  non-empty (`Language.Restorable`). From any other stored language the two toggles go to `th` and then
  `en`, so the page ends in English. With one empty attribute it can fail, because the
  `if (content)` guard keeps the other language's text. For example, `<p data-th="ไทย" data-en="">X</p>`
  on an English page reads "ไทย" after switching to Thai and back
  (`Language.HalfTranslatedElementKeepsOtherText`).
- A stored language other than `th` or `en` is kept in `currentLang` and on `<body data-lang>`. The page
  is still drawn in Thai, and the next toggle goes to `th` (`Language.Page.InitLanguage`, `Language.Toggled`).

## Model

| member | source | states |
|---|---|---|
| `PhoneFormat.Digits` | script.js:361 | the result has only ASCII digits and is no longer than the input |
| `PhoneFormat.FormatPhone` | script.js:361-366 | the output has only digits and `-`; with n digits its length is n, n+1 or n+2; a `-` sits exactly at index 3 when n>3 and at index 7 when n>6, so there is none for n<=3 |
| `PhoneFormat.DigitsAppend` | script.js:361 | taking the digits distributes over concatenation |
| `PhoneFormat.DigitsOfDigitString` | script.js:361 | a string of digits is its own digit string |
| `PhoneFormat.DigitsFixedIff` | script.js:361 | a string is unchanged by removing non-digits iff it is made of digits |
| `PhoneFormat.DigitsAcrossHyphen` | script.js:363-365 | joining two digit strings with `-` keeps exactly their digits |
| `PhoneFormat.FormatPreservesDigits` | script.js:361-366 | the formatted value's digits are the input's digits, in order; with the first ensures of FormatPhone, removing `-` from the output gives the input's digits |
| `PhoneFormat.FormatIdempotent` | script.js:359-368 | formatting the formatted value changes nothing |
| `JsValues.IsJsWhitespace` | script.js:137-144 | the explicit `\s` set; no blank is a digit, `-`, `@` or `.` |
| `Validation.StripSeparators` | script.js:137 | the result has no `-` or whitespace and is no longer than the input |
| `Validation.StripKeepsOthers` | script.js:137 | every character that is not `-` or whitespace survives the strip |
| `Validation.StripIsDigits` | script.js:137 | for text made of digits and separators, the strip leaves exactly its digits |
| `Validation.Validate` | script.js:129-149 | MissingFields iff name, phone or message is null or empty; InvalidPhone iff those are present and the phone fails; InvalidEmail iff those pass and a non-empty email fails the pattern; Ok iff every rule passes |
| `Validation.PhonePattern` | script.js:136 | `/^[0-9]{9,10}$/` holds iff the text has 9 or 10 characters and removing non-digits leaves it unchanged |
| `Validation.PhoneShapeIff` | script.js:136-137 | the strip-then-regex test holds iff each character is a digit, `-` or whitespace and there are 9 or 10 digits |
| `Validation.PhoneAccepted` | script.js:136-137 | a phone passes iff each character is a digit, `-` or whitespace and it holds 9 or 10 digits |
| `Validation.FormattedPhoneAccepted` | script.js:359-368 | the formatter's output passes the phone rule iff the typed text held 9 or 10 digits |
| `Validation.TenDigitExample` | script.js:363-365 | "0812345678" is formatted as "081-234-5678" |
| `Validation.PlainTenDigitsAccepted` | script.js:136-137 | "0812345678" passes the phone rule |
| `Validation.HyphenatedTenDigitsAccepted` | script.js:136-137 | "081-234-5678" passes the phone rule |
| `Validation.SevenDigitsRejected` | script.js:136-137 | "0812345" (seven digits) fails the phone rule |
| `Validation.MatchHasShape` | script.js:144-145 | a string with a split fitting the email regex has no whitespace, exactly one `@` past index 0, and a `.` after it with a character on each side |
| `Validation.ShapeMatches` | script.js:144-145 | a string of that shape has a split fitting the email regex |
| `Validation.EmailPattern` | script.js:144-145 | the email regex, read as "some split fits", matches iff the string has no whitespace and exactly one `@`, with text before it and a `.` after it that has a character on each side |
| `Validation.MissingFieldsFirst` | script.js:130-133 | with a required field missing, the outcome is MissingFields whatever the email |
| `Validation.PhoneBeforeEmail` | script.js:135-149 | with a rejected phone, the outcome is InvalidPhone whatever the email |
| `Validation.NameOnlyNeedsTruthiness` | script.js:130 | any non-empty name, blanks included, gives the same outcome |
| `Validation.CourseIgnored` | script.js:126-149 | the course selection never changes the outcome |
| `Validation.AcceptedEntry` | script.js:129-149 | with name and message given and a well-formed phone, the outcome is Ok iff the email is empty or well-formed |
| `Notification.IconFor` | script.js:241-248 | success gives check-circle, error exclamation-circle, warning exclamation-triangle; the result is info-circle iff the type is none of these |
| `Notification.ColorFor` | script.js:250-257 | success gives #2ECC71, error #E74C3C, warning #F39C12; the result is #3498DB iff the type is none of these |
| `Notification.IconAndColorAgree` | script.js:241-257 | two types share an icon iff they share a colour |
| `Notification.Notifier.Show` | script.js:187-223 | the old toast goes, the new toast is the only one, gets a fresh identity, and no earlier identity is showing |
| `Notification.Notifier.Dismiss` | script.js:226-230 | removes the toast only if it is the one named; otherwise nothing changes |
| `Notification.Notifier.Expire` | script.js:232-238 | the auto-dismiss removes the toast only while that same toast is attached, so a stale timer does nothing |
| `ContactForm.AsEntry` | script.js:122-127 | each of the five form-data fields is present and equals its control's value |
| `ContactForm.FormMissingFields` | script.js:130-133 | a submitted form is rejected as MissingFields iff its name, phone or message control is empty |
| `ContactForm.RejectionText` | script.js:130-148 | each failed check shows its own message: the missing-fields, invalid-phone and invalid-email texts, each iff that was the outcome |
| `ContactForm.SettleNotice` | script.js:167-178 | an ok response shows the sent text as success; any other ending shows the failure text as error |
| `ContactForm.NotOkReportedLikeThrow` | script.js:171-178 | a response that is not ok and a failed fetch show the same notice |
| `ContactForm.Form.TypePhone` | script.js:359-368 | the phone control holds the formatted value, which passes the phone rule iff 9 or 10 digits were typed |
| `ContactForm.Form.Send` | script.js:118-158 | the outcome is the validator's; a failure shows its error and leaves button and fields alone; success saves the label, shows the busy label and disables the button |
| `ContactForm.Form.Settle` | script.js:167-183 | the notice matches the response; fields are reset iff the response was ok; the button gets its saved label back and is enabled |
| `ContactForm.Form.Submit` | script.js:118-183 | for every outcome the button ends with its original label and enabled; fields are cleared iff validation passed and the response was ok; exactly one notification is shown |
| `Language.Retext` | script.js:79-82 | attributes are never changed; the text changes only for an element with both attributes whose chosen text is non-empty, and then becomes that text |
| `Language.RetextIdempotent` | script.js:79-82 | updating an element twice to one language is the same as once |
| `Language.RetextLastWins` | script.js:79-82 | for a restorable element, the last language applied alone decides the text |
| `Language.HalfTranslatedElementKeepsOtherText` | script.js:79-82 | the element data-th="ไทย", data-en="", text "X" is left as it is by an update to en, yet an update to th and then en leaves it reading "ไทย" |
| `Language.RelabelLastWins` | script.js:75-86 | on restorable elements, updating to one language and then another equals updating to the second |
| `Language.RelabelIdempotent` | script.js:75-86 | `updatePageContent(lang)` twice equals once |
| `Language.Relabel` | script.js:75-86 | no attribute changes; an element with both attributes and a non-empty chosen text shows that text; every other element is left as it was, never cleared |
| `Language.ToggleNotice` | script.js:57-63 | the confirmation is the English text iff the new language is en, and the Thai text otherwise |
| `Language.Toggled` | script.js:52-59 | the new language is th or en; it is en iff the old one was th |
| `Language.ToggledTwice` | script.js:52-59 | from th or en, toggling twice gives back the language |
| `Language.IndicatorFor` | script.js:25-31 | the indicator is TH or EN; it is TH iff the language is en |
| `Language.Displayed` | script.js:25-33 | the page is drawn in en iff the language is en, and in th otherwise |
| `Language.InitialLang` | script.js:2 | a stored non-empty value is used; a missing or empty one gives th |
| `Language.Page.constructor` | script.js:2 | the current language comes from the stored value, th by default |
| `Language.Page.UpdateLanguageText` | script.js:40-47 | the indicator is written only when the page has one |
| `Language.Page.UpdatePageContent` | script.js:75-86 | the elements become their relabelled versions and nothing else changes |
| `Language.Page.InitLanguage` | script.js:22-38 | the page is drawn in en or th, the indicator names the other language, body data-lang copies the current language; from th or en the page is consistent |
| `Language.Page.ToggleLanguage` | script.js:49-73 | the language flips; stored value, lang and data-lang equal it; the indicator names the other one; elements are relabelled; one info notice in the new language |
| `Language.Page.ToggleTwice` | script.js:49-73 | from th or en, two toggles restore the language and the stored value becomes that starting language; on a consistent page with restorable elements, every element and attribute is as before |
| `MobileMenu.Menu.Toggle` | script.js:89-104 | both classes flip, so they stay equal if they were; the bars draw an X iff the hamburger is active |
| `MobileMenu.Menu.Close` | script.js:106-115 | both classes off and the bars plain, from any state, so closing twice is closing once |
| `MobileMenu.Menu.Click` | script.js:428-452 | a hamburger click toggles and is not undone by the document listener; a nav-link or outside click closes; other clicks inside the menu change nothing |
| `MobileMenu.Menu.Resize` | script.js:454-459 | the menu closes iff the width exceeds 768 |
| `MobileMenu.Menu.FollowAnchor` | script.js:260-287 | an in-page link closes the menu iff its href is not empty or `#` and its target exists |
| `HeaderScroll.Header.constructor` | script.js:291-293 | the last offset is the offset at load; the header is neither hidden nor translucent |
| `HeaderScroll.Header.Scroll` | script.js:295-314 | translucent iff y>100; hidden iff y>100 and y is past the last offset; last offset becomes y; hidden implies translucent |

## Left out

- DOM construction, `innerHTML` and `style.cssText` text, and the injected keyframe CSS (script.js:195-220, 374-419) are presentation only. The model keeps only the message and type of a toast and the bar styles.
- The `fetch` call, `FormData` transport and `contactForm.action` are network I/O. The response is an input value (`ContactForm.Response`).
- `localStorage` is a field (`Language.Page.stored`). Reading it is the constructor's parameter.
- The `IntersectionObserver` fade-in (script.js:318-339) is not modelled: it is browser event plumbing with no state the script reads back.
- The target offset passed to `window.scrollTo` (script.js:275-281) is not modelled. Only the menu closing at script.js:284 is.
- Listener wiring (script.js:422-460) and initialisation order (script.js:477-504) are left out. The state changes the listeners cause are the methods of `MobileMenu.Menu`, `Language.Page` and `ContactForm.Form`.
- Notification timing (the 5-second delay and the 300 ms slide-out before removal) is left out. Dismissal and expiry are events that name a toast. During the slide-out the model already treats the toast as gone.
- `debounce` and `throttle` (script.js:513-536) are never called.
- The `module.exports` block (script.js:539-545) names an undefined `toggleTheme`. `initTheme` only sets a constant attribute.
- `checkUrlParameters` (script.js:463-474) is a thin wrapper over `URLSearchParams` and `history.replaceState`.
- Performance timing, console logging and the global error handler (script.js:498-510) are left out.
- Page elements are separate records, independent of each other and of the indicator. Writing `textContent` (script.js:81) also removes an element's children, so for a bilingual element nested in another, or a `.lang-text` that carries the attributes itself, the effect of one update on the other is not captured.
- Scroll offsets are floating point in browsers. The model uses `int`.
- `showNotification`'s default type `'info'` is not modelled, because every call site passes a type.
- `ContactForm.Form.Fill` stands for the user typing into the controls. It is browser input, not script code, so it has no row.
- `form.reset()` (script.js:170) restores the `defaults` field values given when the form is built. The markup's default values are outside the model.
- `ContactForm.Form.Send` requires that no request is outstanding. While one is, the submit button is disabled, and the browser does not submit a form through a disabled button. Re-entry of the handler is therefore not modelled.
- Strings are sequences of Unicode scalar values, while JavaScript regexes without the `u` flag see UTF-16 code units. No rule here depends on the difference: digits are ASCII, and a character outside the BMP is non-blank under both readings.
